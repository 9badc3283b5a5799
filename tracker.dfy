/**
 * The per-group change tracker of the dashboard's render loop (`main`).
 *
 * The tracker keeps, for each of the three metrics (players, ratio, rating), the
 * value every group showed on the previous render. A render pass walks the rows
 * of one metric in ranked order, gives each row a colour tier from its rank,
 * highlights it when its value differs from the stored one, and stores the new
 * value. A render cycle runs the three passes on the result of one poll.
 */
module Tracker {
  import opened Wrappers
  import opened Seqs
  import Sorting
  import opened Aggregation

  /** The three keys of `previous_data`. */
  datatype Metric = Players | Ratio | Rating

  /** The CSS classes of a tile; `VeryLow` exists in the style sheet but is never chosen. */
  datatype Tier = High | Medium | Low | VeryLow

  /** One line of a column before it is shown: group name and metric value. */
  datatype Row = Row(group: string, value: real)

  /** One shown tile: group, value, colour tier and whether it carries the `highlight` class. */
  datatype Tile = Tile(group: string, value: real, tier: Tier, highlight: bool)

  /**
   * The tiles one pass shows, the stored values after it, and whether it ran to the end
   * (`false`: a row's group had no stored value, so the lookup raised `KeyError`).
   */
  datatype PassOutcome = PassOutcome(tiles: seq<Tile>, store: map<string, real>, completed: bool)

  function RowGroup(r: Row): string { r.group }
  function RowValue(r: Row): real { r.value }
  function Groups(rows: seq<Row>): seq<string> { MapSeq(rows, RowGroup) }

  /** Every name in `groups` has a stored previous value. */
  predicate Covers(store: map<string, real>, groups: seq<string>)
  {
    forall g :: g in groups ==> g in store
  }

  /** The colour tier of the row at position `index` of a ranked column. */
  function TierOf(index: nat): (t: Tier)
    ensures t != VeryLow
    ensures t == High <==> index < 3
    ensures t == Medium <==> 3 <= index < 6
    ensures t == Low <==> 6 <= index
  {
    if index < 3 then High else if index < 6 then Medium else Low
  }

  /** The loop `for index, row in enumerate(rows)` of one column, `index` being the rank of `rows[0]`. */
  function RenderPass(store: map<string, real>, rows: seq<Row>, index: nat): (o: PassOutcome)
    ensures |o.tiles| <= |rows|
    decreases |rows|
  {
    if rows == [] then PassOutcome([], store, true)
    else if rows[0].group !in store then PassOutcome([], store, false)
    else
      var tile := Tile(rows[0].group, rows[0].value, TierOf(index), rows[0].value != store[rows[0].group]);
      var rest := RenderPass(store[rows[0].group := rows[0].value], rows[1..], index + 1);
      PassOutcome([tile] + rest.tiles, rest.store, rest.completed)
  }

  /** Puts tiles already shown in front of the outcome of the rest of a pass. */
  function Join(shown: seq<Tile>, o: PassOutcome): PassOutcome
  {
    o.(tiles := shown + o.tiles)
  }

  lemma JoinJoin(a: seq<Tile>, b: seq<Tile>, o: PassOutcome)
    ensures Join(a, Join(b, o)) == Join(a + b, o)
  {
    assert a + (b + o.tiles) == (a + b) + o.tiles;
  }

  /** One step of a pass, as the loop body takes it. */
  lemma RenderPassStep(store: map<string, real>, rows: seq<Row>, i: nat)
    requires i < |rows|
    ensures rows[i].group !in store ==> RenderPass(store, rows[i..], i) == PassOutcome([], store, false)
    ensures rows[i].group in store ==>
      RenderPass(store, rows[i..], i)
      == Join([Tile(rows[i].group, rows[i].value, TierOf(i), rows[i].value != store[rows[i].group])],
              RenderPass(store[rows[i].group := rows[i].value], rows[i + 1..], i + 1))
  {
    assert rows[i..][0] == rows[i] && rows[i..][1..] == rows[i + 1..];
  }

  lemma GroupsCons(rows: seq<Row>)
    requires rows != []
    ensures Groups(rows) == [rows[0].group] + Groups(rows[1..])
  {
  }

  /** A pass never adds or removes a key of the stored values. */
  lemma {:induction false} RenderPassKeys(store: map<string, real>, rows: seq<Row>, index: nat)
    ensures RenderPass(store, rows, index).store.Keys == store.Keys
    decreases |rows|
  {
    if rows != [] && rows[0].group in store {
      RenderPassKeys(store[rows[0].group := rows[0].value], rows[1..], index + 1);
    }
  }

  /**
   * A pass runs to the end, showing every row, exactly when every row's group has a stored
   * value. Otherwise it stops at the first row whose group has none (the `KeyError`), after
   * showing the rows before it.
   */
  lemma {:induction false} RenderPassCompletes(store: map<string, real>, rows: seq<Row>, index: nat)
    ensures var o := RenderPass(store, rows, index);
      && (o.completed <==> Covers(store, Groups(rows)))
      && (o.completed <==> |o.tiles| == |rows|)
      && (!o.completed ==>
            && rows[|o.tiles|].group !in store
            && forall i :: 0 <= i < |o.tiles| ==> rows[i].group in store)
    decreases |rows|
  {
    if rows != [] {
      GroupsCons(rows);
      if rows[0].group in store {
        var next := store[rows[0].group := rows[0].value];
        RenderPassCompletes(next, rows[1..], index + 1);
        assert next.Keys == store.Keys;
        assert Covers(store, Groups(rows)) <==> Covers(next, Groups(rows[1..]));
        var rest := RenderPass(next, rows[1..], index + 1);
        var o := RenderPass(store, rows, index);
        assert |o.tiles| == 1 + |rest.tiles|;
        if !o.completed {
          assert rows[|o.tiles|] == rows[1..][|rest.tiles|];
          forall i | 0 <= i < |o.tiles| ensures rows[i].group in store {
            if i > 0 {
              assert rows[i] == rows[1..][i - 1];
            }
          }
        }
      } else {
        assert Groups(rows)[0] == rows[0].group;
      }
    }
  }

  /** A pass shows the rows in order, each with its own value and the tier of its rank. */
  lemma {:induction false} RenderPassTiles(store: map<string, real>, rows: seq<Row>, index: nat)
    ensures var o := RenderPass(store, rows, index);
      forall i :: 0 <= i < |o.tiles| ==>
        o.tiles[i].group == rows[i].group && o.tiles[i].value == rows[i].value
        && o.tiles[i].tier == TierOf(index + i)
    decreases |rows|
  {
    if rows != [] && rows[0].group in store {
      var next := store[rows[0].group := rows[0].value];
      RenderPassTiles(next, rows[1..], index + 1);
      var rest := RenderPass(next, rows[1..], index + 1);
      var o := RenderPass(store, rows, index);
      assert o.tiles == [Tile(rows[0].group, rows[0].value, TierOf(index), rows[0].value != store[rows[0].group])] + rest.tiles;
      forall i | 1 <= i < |o.tiles|
        ensures o.tiles[i].group == rows[i].group && o.tiles[i].value == rows[i].value
             && o.tiles[i].tier == TierOf(index + i)
      {
        assert o.tiles[i] == rest.tiles[i - 1];
        assert rows[1..][i - 1] == rows[i];
      }
    }
  }

  /** The stored value of a group that has no row in the pass is left as it was. */
  lemma {:induction false} RenderPassUntouched(store: map<string, real>, rows: seq<Row>, index: nat, g: string)
    requires g in store && g !in Groups(rows)
    ensures g in RenderPass(store, rows, index).store
    ensures RenderPass(store, rows, index).store[g] == store[g]
    decreases |rows|
  {
    if rows != [] && rows[0].group in store {
      GroupsCons(rows);
      RenderPassUntouched(store[rows[0].group := rows[0].value], rows[1..], index + 1, g);
    }
  }

  /** With distinct groups, a shown tile is highlighted exactly when its value differs from the stored one. */
  lemma {:induction false} RenderPassHighlights(store: map<string, real>, rows: seq<Row>, index: nat)
    requires Unique(Groups(rows))
    ensures var o := RenderPass(store, rows, index);
      forall i :: 0 <= i < |o.tiles| ==>
        rows[i].group in store && o.tiles[i].highlight == (rows[i].value != store[rows[i].group])
    decreases |rows|
  {
    if rows != [] && rows[0].group in store {
      GroupsCons(rows);
      UniqueCons(Groups(rows));
      var next := store[rows[0].group := rows[0].value];
      RenderPassHighlights(next, rows[1..], index + 1);
      var o := RenderPass(store, rows, index);
      forall i | 1 <= i < |o.tiles|
        ensures rows[i].group in store && o.tiles[i].highlight == (rows[i].value != store[rows[i].group])
      {
        assert rows[i].group == Groups(rows[1..])[i - 1];
        assert rows[i].group != rows[0].group;
      }
    }
  }

  /** With distinct groups, after a pass every shown row's value is the stored one. */
  lemma {:induction false} RenderPassWrites(store: map<string, real>, rows: seq<Row>, index: nat)
    requires Unique(Groups(rows))
    ensures var o := RenderPass(store, rows, index);
      forall i :: 0 <= i < |o.tiles| ==> rows[i].group in o.store && o.store[rows[i].group] == rows[i].value
    decreases |rows|
  {
    if rows != [] && rows[0].group in store {
      GroupsCons(rows);
      UniqueCons(Groups(rows));
      var next := store[rows[0].group := rows[0].value];
      RenderPassWrites(next, rows[1..], index + 1);
      RenderPassUntouched(next, rows[1..], index + 1, rows[0].group);
    }
  }

  /** A pass over values that are all already stored highlights nothing and changes nothing. */
  lemma {:induction false} RenderPassUnchanging(store: map<string, real>, rows: seq<Row>, index: nat)
    requires forall i :: 0 <= i < |rows| ==> rows[i].group in store && store[rows[i].group] == rows[i].value
    ensures var o := RenderPass(store, rows, index);
      o.completed && o.store == store && forall i :: 0 <= i < |o.tiles| ==> !o.tiles[i].highlight
    decreases |rows|
  {
    if rows != [] {
      assert store[rows[0].group := rows[0].value] == store;
      RenderPassUnchanging(store, rows[1..], index + 1);
    }
  }

  /** Running the same pass twice: the second run highlights nothing and stores nothing new. */
  lemma RenderPassSettles(store: map<string, real>, rows: seq<Row>, index: nat)
    requires Unique(Groups(rows)) && Covers(store, Groups(rows))
    ensures var o := RenderPass(store, rows, index);
      var again := RenderPass(o.store, rows, index);
      && o.completed && again.completed && again.store == o.store
      && forall i :: 0 <= i < |again.tiles| ==> !again.tiles[i].highlight
  {
    var o := RenderPass(store, rows, index);
    RenderPassCompletes(store, rows, index);
    RenderPassWrites(store, rows, index);
    RenderPassUnchanging(o.store, rows, index);
  }

  /** `previous_data[metric]` as `main` creates it: every group mapped to 0. */
  function BaselineStore(groups: seq<string>): (m: map<string, real>)
    ensures forall g :: g in groups <==> g in m
    ensures forall g :: g in m ==> m[g] == 0.0
  {
    map g | g in groups :: 0.0
  }

  /** On the first pass a row is highlighted exactly when its value is not 0. */
  lemma FirstPassHighlightsNonzero(groups: seq<string>, rows: seq<Row>)
    requires Unique(Groups(rows)) && Covers(BaselineStore(groups), Groups(rows))
    ensures var o := RenderPass(BaselineStore(groups), rows, 0);
      && o.completed && |o.tiles| == |rows|
      && forall i :: 0 <= i < |rows| ==> (o.tiles[i].highlight <==> o.tiles[i].value != 0.0)
  {
    RenderPassCompletes(BaselineStore(groups), rows, 0);
    RenderPassHighlights(BaselineStore(groups), rows, 0);
    RenderPassTiles(BaselineStore(groups), rows, 0);
  }

  // ---------------------------------------------------------------- the three columns

  function PlayerRow(st: GroupStat): Row { Row(st.group, st.players as real) }
  function RatioRow(st: GroupStat): Row { Row(st.group, st.ratio) }
  function RatioKey(st: GroupStat): real { st.ratio }

  /** `0.7 * players + 0.3 * ratio`, with exact arithmetic. */
  function RatingOf(st: GroupStat): real { 0.7 * (st.players as real) + 0.3 * st.ratio }
  function RatingRow(st: GroupStat): Row { Row(st.group, RatingOf(st)) }

  /** The players column: `reversed(stats)`. */
  function PlayerRows(stats: seq<GroupStat>): seq<Row>
  {
    MapSeq(Reverse(stats), PlayerRow)
  }

  /** The ratio column: `sorted(stats, key=ratio, reverse=True)`. */
  function RatioRows(stats: seq<GroupStat>): seq<Row>
  {
    MapSeq(Sorting.SortBy(stats, RatioKey, true), RatioRow)
  }

  /** The rating column: `sorted(rating_stats, key=rating, reverse=True)`. */
  function RatingRows(stats: seq<GroupStat>): seq<Row>
  {
    Sorting.SortBy(MapSeq(stats, RatingRow), RowValue, true)
  }

  /** Each column lists every group of the result once, as many times as the result does. */
  lemma ColumnsGroups(stats: seq<GroupStat>)
    ensures multiset(Groups(PlayerRows(stats))) == multiset(MapSeq(stats, StatGroup))
    ensures multiset(Groups(RatioRows(stats))) == multiset(MapSeq(stats, StatGroup))
    ensures multiset(Groups(RatingRows(stats))) == multiset(MapSeq(stats, StatGroup))
  {
    MapSeqCompose(Reverse(stats), PlayerRow, RowGroup, StatGroup);
    MapSeqReverse(stats, StatGroup);
    ReverseMultiset(MapSeq(stats, StatGroup));
    var byRatio := Sorting.SortBy(stats, RatioKey, true);
    MapSeqCompose(byRatio, RatioRow, RowGroup, StatGroup);
    Sorting.SortByMapMultiset(stats, RatioKey, true, StatGroup);
    var ratings := MapSeq(stats, RatingRow);
    Sorting.SortByMapMultiset(ratings, RowValue, true, RowGroup);
    MapSeqCompose(stats, RatingRow, RowGroup, StatGroup);
  }

  /** With the result sorted ascending by players, the players column runs from the most players down. */
  lemma PlayerColumnRanked(stats: seq<GroupStat>)
    requires Sorting.Ordered(stats, PlayersKey, false)
    ensures Sorting.Ordered(PlayerRows(stats), RowValue, true)
  {
    var n := |stats|;
    forall i, j | 0 <= i < j < n
      ensures !Sorting.Before(RowValue(PlayerRows(stats)[j]), RowValue(PlayerRows(stats)[i]), true)
    {
      assert PlayerRows(stats)[i] == PlayerRow(stats[n - 1 - i]);
      assert PlayerRows(stats)[j] == PlayerRow(stats[n - 1 - j]);
    }
  }

  /** The ratio column holds the ratio rows of the result, from the largest ratio down, ties in result order. */
  lemma RatioColumnRanked(stats: seq<GroupStat>)
    ensures Sorting.Ordered(RatioRows(stats), RowValue, true)
    ensures multiset(RatioRows(stats)) == multiset(MapSeq(stats, RatioRow))
    ensures forall v :: Sorting.WithKey(Sorting.SortBy(stats, RatioKey, true), RatioKey, v) == Sorting.WithKey(stats, RatioKey, v)
  {
    var byRatio := Sorting.SortBy(stats, RatioKey, true);
    forall v ensures Sorting.WithKey(byRatio, RatioKey, v) == Sorting.WithKey(stats, RatioKey, v) {
      Sorting.SortByStable(stats, RatioKey, true, v);
    }
    Sorting.SortByOrdered(stats, RatioKey, true);
    Sorting.SortByMapMultiset(stats, RatioKey, true, RatioRow);
    forall i, j | 0 <= i < j < |byRatio|
      ensures !Sorting.Before(RowValue(RatioRows(stats)[j]), RowValue(RatioRows(stats)[i]), true)
    {
      assert !Sorting.Before(RatioKey(byRatio[j]), RatioKey(byRatio[i]), true);
    }
  }

  /**
   * The rating column holds, for every row of the result, its group with
   * `0.7 * players + 0.3 * ratio`, from the largest rating down.
   */
  lemma RatingColumnRanked(stats: seq<GroupStat>)
    ensures Sorting.Ordered(RatingRows(stats), RowValue, true)
    ensures multiset(RatingRows(stats)) == multiset(MapSeq(stats, RatingRow))
    ensures forall r :: r in RatingRows(stats) ==>
      exists j :: 0 <= j < |stats| && r == Row(stats[j].group, 0.7 * (stats[j].players as real) + 0.3 * stats[j].ratio)
  {
    var ratings := MapSeq(stats, RatingRow);
    Sorting.SortByOrdered(ratings, RowValue, true);
    Sorting.SortByPermutation(ratings, RowValue, true);
    forall r | r in RatingRows(stats)
      ensures exists j :: 0 <= j < |stats| && r == Row(stats[j].group, 0.7 * (stats[j].players as real) + 0.3 * stats[j].ratio)
    {
      assert r in multiset(ratings);
      var j :| 0 <= j < |ratings| && ratings[j] == r;
      assert r == RatingRow(stats[j]);
    }
  }

  /** Rating bounds for a row of the result: between 0.7 times the players and the players; 0 without servers. */
  lemma RatingBounds(servers: seq<Server>, g: Group)
    ensures var st := StatOf(servers, g);
      && 0.7 * (st.players as real) <= RatingOf(st) <= st.players as real
      && (st.count == 0 ==> RatingOf(st) == 0.0)
  {
    StatOfProperties(servers, g);
  }

  // ---------------------------------------------------------------- one render cycle

  /** The whole of `previous_data`. */
  datatype Snapshot = Snapshot(players: map<string, real>, ratio: map<string, real>, rating: map<string, real>)

  /** The three columns shown by one cycle. */
  datatype Columns = Columns(players: seq<Tile>, ratio: seq<Tile>, rating: seq<Tile>)

  datatype CycleOutcome = CycleOutcome(columns: Columns, state: Snapshot, completed: bool)

  function Baseline(groups: seq<string>): Snapshot
  {
    Snapshot(BaselineStore(groups), BaselineStore(groups), BaselineStore(groups))
  }

  /** Python's truth value of `stats`: a result that is present and not empty. */
  predicate HasStats(stats: Option<seq<GroupStat>>)
  {
    stats.Some? && stats.value != []
  }

  /** `if stats:` followed by the players, ratio and rating columns, stopping at a `KeyError`. */
  function Cycle(prev: Snapshot, stats: Option<seq<GroupStat>>): CycleOutcome
  {
    if !HasStats(stats) then CycleOutcome(Columns([], [], []), prev, true)
    else
      var s := stats.value;
      var p := RenderPass(prev.players, PlayerRows(s), 0);
      if !p.completed then CycleOutcome(Columns(p.tiles, [], []), prev.(players := p.store), false)
      else
        var r := RenderPass(prev.ratio, RatioRows(s), 0);
        if !r.completed then CycleOutcome(Columns(p.tiles, r.tiles, []), prev.(players := p.store, ratio := r.store), false)
        else
          var q := RenderPass(prev.rating, RatingRows(s), 0);
          CycleOutcome(Columns(p.tiles, r.tiles, q.tiles), Snapshot(p.store, r.store, q.store), q.completed)
  }

  predicate NoHighlight(c: Columns)
  {
    && (forall i :: 0 <= i < |c.players| ==> !c.players[i].highlight)
    && (forall i :: 0 <= i < |c.ratio| ==> !c.ratio[i].highlight)
    && (forall i :: 0 <= i < |c.rating| ==> !c.rating[i].highlight)
  }

  predicate CoversAll(state: Snapshot, groups: seq<string>)
  {
    Covers(state.players, groups) && Covers(state.ratio, groups) && Covers(state.rating, groups)
  }

  /** A cycle whose three passes all run to the end shows their tiles and keeps their stored values. */
  lemma CycleOfPasses(prev: Snapshot, stats: Option<seq<GroupStat>>)
    requires HasStats(stats)
    requires RenderPass(prev.players, PlayerRows(stats.value), 0).completed
    requires RenderPass(prev.ratio, RatioRows(stats.value), 0).completed
    ensures var s := stats.value;
      var p := RenderPass(prev.players, PlayerRows(s), 0);
      var r := RenderPass(prev.ratio, RatioRows(s), 0);
      var q := RenderPass(prev.rating, RatingRows(s), 0);
      Cycle(prev, stats) == CycleOutcome(Columns(p.tiles, r.tiles, q.tiles), Snapshot(p.store, r.store, q.store), q.completed)
  {
  }

  /** A poll that yields no data shows nothing and leaves every stored value alone. */
  lemma NoDataKeepsState(prev: Snapshot, groups: seq<Group>)
    ensures Cycle(prev, ServerStats(None, groups)) == CycleOutcome(Columns([], [], []), prev, true)
  {
  }

  /** A cycle never changes the key set of `previous_data`. */
  lemma CycleKeys(prev: Snapshot, stats: Option<seq<GroupStat>>)
    ensures var o := Cycle(prev, stats);
      && o.state.players.Keys == prev.players.Keys
      && o.state.ratio.Keys == prev.ratio.Keys
      && o.state.rating.Keys == prev.rating.Keys
  {
    if HasStats(stats) {
      var s := stats.value;
      RenderPassKeys(prev.players, PlayerRows(s), 0);
      RenderPassKeys(prev.ratio, RatioRows(s), 0);
      RenderPassKeys(prev.rating, RatingRows(s), 0);
    }
  }

  /** The three columns of a poll's result have distinct groups, all of them stored. */
  lemma ColumnsFit(prev: Snapshot, servers: seq<Server>, groups: seq<Group>)
    requires Unique(MapSeq(groups, GroupName)) && CoversAll(prev, MapSeq(groups, GroupName))
    ensures var s := ServerStats(Some(servers), groups).value;
      && Unique(Groups(PlayerRows(s))) && Covers(prev.players, Groups(PlayerRows(s)))
      && Unique(Groups(RatioRows(s))) && Covers(prev.ratio, Groups(RatioRows(s)))
      && Unique(Groups(RatingRows(s))) && Covers(prev.rating, Groups(RatingRows(s)))
  {
    var names := MapSeq(groups, GroupName);
    var s := ServerStats(Some(servers), groups).value;
    ServerStatsShape(servers, groups);
    ColumnsGroups(s);
    UniqueMultiset(names, Groups(PlayerRows(s)));
    UniqueMultiset(names, Groups(RatioRows(s)));
    UniqueMultiset(names, Groups(RatingRows(s)));
    forall g | g in Groups(PlayerRows(s)) ensures g in names {
      assert g in multiset(Groups(PlayerRows(s)));
    }
    forall g | g in Groups(RatioRows(s)) ensures g in names {
      assert g in multiset(Groups(RatioRows(s)));
    }
    forall g | g in Groups(RatingRows(s)) ensures g in names {
      assert g in multiset(Groups(RatingRows(s)));
    }
  }

  /**
   * Rendering an identical poll result twice: the first cycle runs
   * to the end, the second highlights nothing and leaves `previous_data` as it was.
   */
  lemma CycleSettles(prev: Snapshot, servers: seq<Server>, groups: seq<Group>)
    requires Unique(MapSeq(groups, GroupName)) && CoversAll(prev, MapSeq(groups, GroupName))
    ensures var stats := ServerStats(Some(servers), groups);
      var o := Cycle(prev, stats);
      var again := Cycle(o.state, stats);
      && o.completed && again.completed && again.state == o.state && NoHighlight(again.columns)
  {
    var s := ServerStats(Some(servers), groups).value;
    ColumnsFit(prev, servers, groups);
    RenderPassSettles(prev.players, PlayerRows(s), 0);
    RenderPassSettles(prev.ratio, RatioRows(s), 0);
    RenderPassSettles(prev.rating, RatingRows(s), 0);
  }

  /** The first cycle after start-up highlights exactly the tiles whose value is not 0. */
  lemma FirstCycleHighlightsNonzero(servers: seq<Server>, groups: seq<Group>)
    requires Unique(MapSeq(groups, GroupName))
    ensures var o := Cycle(Baseline(MapSeq(groups, GroupName)), ServerStats(Some(servers), groups));
      && o.completed
      && (forall i :: 0 <= i < |o.columns.players| ==> (o.columns.players[i].highlight <==> o.columns.players[i].value != 0.0))
      && (forall i :: 0 <= i < |o.columns.ratio| ==> (o.columns.ratio[i].highlight <==> o.columns.ratio[i].value != 0.0))
      && (forall i :: 0 <= i < |o.columns.rating| ==> (o.columns.rating[i].highlight <==> o.columns.rating[i].value != 0.0))
  {
    var names := MapSeq(groups, GroupName);
    var stats := ServerStats(Some(servers), groups);
    var s := stats.value;
    ColumnsFit(Baseline(names), servers, groups);
    FirstPassHighlightsNonzero(names, PlayerRows(s));
    FirstPassHighlightsNonzero(names, RatioRows(s));
    FirstPassHighlightsNonzero(names, RatingRows(s));
    if HasStats(stats) {
      CycleOfPasses(Baseline(names), stats);
    }
  }

  // ---------------------------------------------------------------- the mutable state

  /** `previous_data`, updated in place by the render passes. */
  class ChangeTracker {
    var players: map<string, real>
    var ratio: map<string, real>
    var rating: map<string, real>

    function State(): Snapshot
      reads this
    {
      Snapshot(players, ratio, rating)
    }

    function Stored(metric: Metric): map<string, real>
      reads this
    {
      match metric
      case Players => players
      case Ratio => ratio
      case Rating => rating
    }

    /** Every tracked group starts at 0 for all three metrics. */
    constructor (groups: seq<string>)
      ensures State() == Baseline(groups)
    {
      players := BaselineStore(groups);
      ratio := BaselineStore(groups);
      rating := BaselineStore(groups);
    }

    /** `previous_data[metric][group] = value`. */
    method Store(metric: Metric, group: string, value: real)
      modifies this
      ensures Stored(metric) == old(Stored(metric))[group := value]
      ensures metric != Players ==> players == old(players)
      ensures metric != Ratio ==> ratio == old(ratio)
      ensures metric != Rating ==> rating == old(rating)
    {
      match metric
      case Players => players := players[group := value];
      case Ratio => ratio := ratio[group := value];
      case Rating => rating := rating[group := value];
    }

    /** One column: tier by rank, highlight on change, then overwrite the stored value. */
    method Pass(metric: Metric, rows: seq<Row>) returns (tiles: seq<Tile>, completed: bool)
      modifies this
      ensures var o := RenderPass(old(Stored(metric)), rows, 0);
        tiles == o.tiles && completed == o.completed && Stored(metric) == o.store
      ensures metric != Players ==> players == old(players)
      ensures metric != Ratio ==> ratio == old(ratio)
      ensures metric != Rating ==> rating == old(rating)
    {
      tiles, completed := [], true;
      var i := 0;
      assert rows[0..] == rows;
      while i < |rows|
        invariant 0 <= i <= |rows|
        invariant Join(tiles, RenderPass(Stored(metric), rows[i..], i)) == RenderPass(old(Stored(metric)), rows, 0)
        invariant metric != Players ==> players == old(players)
        invariant metric != Ratio ==> ratio == old(ratio)
        invariant metric != Rating ==> rating == old(rating)
      {
        var row := rows[i];
        var previous := Stored(metric);
        RenderPassStep(previous, rows, i);
        if row.group !in previous {
          completed := false;
          return;
        }
        var tile := Tile(row.group, row.value, TierOf(i), row.value != previous[row.group]);
        JoinJoin(tiles, [tile], RenderPass(previous[row.group := row.value], rows[i + 1..], i + 1));
        tiles := tiles + [tile];
        Store(metric, row.group, row.value);
        i := i + 1;
      }
      assert rows[i..] == [];
    }

    /** One iteration of the render loop on the result of one poll. */
    method Refresh(fetched: Option<seq<Server>>, groups: seq<Group>) returns (columns: Columns, completed: bool)
      modifies this
      ensures var o := Cycle(old(State()), ServerStats(fetched, groups));
        columns == o.columns && completed == o.completed && State() == o.state
    {
      var stats := GetServerStats(fetched, groups);
      columns, completed := Columns([], [], []), true;
      if !HasStats(stats) {
        return;
      }
      var s := stats.value;
      var shown, ok := Pass(Players, PlayerRows(s));
      columns := columns.(players := shown);
      if !ok {
        completed := false;
        return;
      }
      shown, ok := Pass(Ratio, RatioRows(s));
      columns := columns.(ratio := shown);
      if !ok {
        completed := false;
        return;
      }
      shown, ok := Pass(Rating, RatingRows(s));
      columns := columns.(rating := shown);
      completed := ok;
    }
  }
}
