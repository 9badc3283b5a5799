# SS14 server statistics: aggregator and change tracker

This project is a Dafny model of the logic in the SS14 server-statistics dashboard (`main.py`).
The dashboard polls the public SS14 server directory. It sorts the servers into nine community
groups by keyword, and renders three ranked columns (players, players-per-server ratio, rating).
A tile is highlighted when its value changed since the previous render.

The model has two parts.

- **Aggregator** (`aggregation.dfy`, module `Aggregation`): `get_server_stats` once the
  directory has answered. A server belongs to a group when its name contains one of the group's
  keywords.
  - `total_players` adds a server's players once for every keyword it contains.
  - `server_count` counts each matching server once.
  - `ratio` is `total / count`, or 0 when no server matches.
  - The rows come back sorted ascending by players.
  - A failed poll is `None` and stays `None`.
- **Change tracker** (`tracker.dfy`, module `Tracker`): the `previous_data` dictionary of `main`.
  It is a class `ChangeTracker` with one `map<string, real>` per metric.
  - `Pass` runs one column loop: tier from the rank, highlight when the value differs from the
    stored one, then overwrite the stored value.
  - `Refresh` runs one iteration of the render loop: poll result, then the players, ratio and
    rating columns.
  - Each method is proved against a pure specification function (`RenderPass`, `Cycle`).
- Support modules: `Wrappers` (`Option`), `Seqs` (map, reverse, uniqueness), and `Sorting`.
  `Sorting` holds Python's `sorted`, which is stable also with `reverse=True`, so it is modelled
  as a stable insertion sort. Stability is proved.

Numbers: players are `nat`. Ratio and rating are exact `real`s, and `0.7`/`0.3` are exact decimals.
Strings are `seq<char>`, and substring containment is case-sensitive, as Python's `in` is.

The group table is a parameter of every operation. The dashboard's own table is the constant
`Aggregation.ServerGroups`. Lemmas that need distinct group names take that as a hypothesis,
because the table is a Python dict, whose keys are distinct.

Two behaviours of the code are worth stating outright:

- Every tracked group starts at 0 in `previous_data`, so the first render highlights every
  nonzero value (`Tracker.FirstCycleHighlightsNonzero`).
- One server adds its players to its group once for every keyword of the group that its name
  contains. A server named `SUNRISE FIRE` with 10 players gives its group a total of 20 and a
  count of 1 (`Aggregation.DoubleCounted`). So the group totals can add up to more than the
  players online. A server can also belong to several groups.

## Model

| member | source | states |
|---|---|---|
| `Aggregation.Contains` | main.py:66 | Python's `keyword in name`; its meaning is stated by `ContainsIff` |
| `Aggregation.MatchesAny` | main.py:68 | `any(keyword in name for keyword in keywords)`; tied to the hit count by `KeywordHitsMatches` |
| `Aggregation.TotalPlayers` | main.py:62-67 | the nested-generator sum of line 62; its meaning is stated by `TotalPlayersWeighted`, `NoMatchNoPlayers` and `DoubleCounted` |
| `Aggregation.ServerCount` | main.py:68 | `len([...])` of the matching servers; its meaning is stated by `ServerCountIsMatchingIndices` and `MatchingServersSound` |
| `Aggregation.StatOf` | main.py:62-70 | the row appended for one group; its meaning is stated by `StatOfProperties` and `UnmatchedServerIgnored` |
| `Aggregation.ServerStats` | main.py:42-75 | the whole function, `None` on a failed poll; its meaning is stated by `GetServerStats`, `ServerStatsShape` and `UnmatchedServerIgnoredEverywhere` |
| `Sorting.SortBy` | main.py:72 | Python's stable `sorted`, also used at lines 124 and 154; its meaning is stated by `SortByOrdered`, `SortByPermutation`, `SortByMapMultiset` and `SortByStable` |
| `Tracker.PlayerRows` | main.py:101 | the players column `reversed(stats)`; its meaning is stated by `PlayerColumnRanked` and `ColumnsGroups` |
| `Tracker.RatioRows` | main.py:124 | the ratio column; its meaning is stated by `RatioColumnRanked` and `ColumnsGroups` |
| `Tracker.RatingRows` | main.py:147-154 | the rating column; its meaning is stated by `RatingColumnRanked` and `ColumnsGroups` |
| `Tracker.RatingOf` | main.py:150 | the rating formula; its bounds are stated by `RatingBounds` |
| `Tracker.HasStats` | main.py:92 | Python's truth value of `stats`; used by `Cycle`, and `NoDataKeepsState` states the no-data case |
| `Tracker.Cycle` | main.py:92-165 | one render cycle; its meaning is stated by `NoDataKeepsState`, `CycleKeys`, `CycleSettles`, `FirstCycleHighlightsNonzero` and `ChangeTracker.Refresh` |
| `Aggregation.ContainsIff` | main.py:66 | `keyword in name` holds exactly when the keyword occurs at some position of the name |
| `Aggregation.KeywordHits` | main.py:65-66 | the number of keyword entries a name contains is at most the number of entries |
| `Aggregation.KeywordHitsMatches` | main.py:65-68 | that number is positive exactly when `any(keyword in name ...)` of line 68 holds |
| `Aggregation.TotalPlayersWeighted` | main.py:62-67 | `total_players` (the nested generator) equals the sum over servers of players times the number of the group's keywords in the name; no de-duplication |
| `Aggregation.DoubleCounted` | main.py:62-68 | a server with 10 players whose name holds two keywords of the group adds 20 to the total but 1 to the count |
| `Aggregation.MatchingServers` | main.py:68 | the list comprehension keeps at most as many servers as there are |
| `Aggregation.MatchingServersSound` | main.py:68 | it keeps only servers of the input that match at least one keyword |
| `Aggregation.ServerCountIsMatchingIndices` | main.py:68 | `server_count` equals the number of positions whose server matches at least one keyword, so each server counts at most once |
| `Aggregation.NoMatchNoPlayers` | main.py:62-68 | a group with `server_count` 0 has `total_players` 0 |
| `Aggregation.PlayerRatio` | main.py:69 | the ratio is non-negative and 0 without servers; otherwise ratio times count is the total, and the ratio is at most the total |
| `Aggregation.StatOfProperties` | main.py:61-70 | a row carries the group name, the weighted total, a count equal to the matching positions and at most the number of servers, 0 ≤ ratio ≤ players, and players and ratio both 0 without servers |
| `Aggregation.UnmatchedServerIgnored` | main.py:61-69 | inserting a server that contains none of a group's keywords anywhere in the list leaves that group's row unchanged |
| `Aggregation.UnmatchedServerIgnoredEverywhere` | main.py:60-72 | a server matching no group leaves the whole sorted result unchanged |
| `Aggregation.Collected` | main.py:60-70 | the append loop produces one row per group, in table order, row i being the statistics of group i |
| `Aggregation.GetServerStats` | main.py:42-75 | the loop-and-sort method returns `None` exactly for a failed poll, and otherwise the rows sorted by players |
| `Aggregation.ServerStatsShape` | main.py:60-72 | the result has one row per group, is sorted non-decreasingly by players, is a permutation of the table-order rows, carries exactly the table's names, and keeps table order among equal player counts |
| `Sorting.SortByOrdered` | main.py:72 | `sorted` output is ordered by the key (ascending, or descending for `reverse=True`) |
| `Sorting.SortByPermutation` | main.py:72 | `sorted` output has the input's length and multiset of elements |
| `Sorting.SortByMapMultiset` | main.py:72 | any projection (such as the group name) of the elements keeps its multiset under `sorted` |
| `Sorting.SortByStable` | main.py:72 | elements with equal keys come out in input order |
| `Seqs.Reverse` | main.py:101 | `reversed(stats)` puts element `n-1-i` at position i |
| `Seqs.MapSeq` | main.py:147-153 | the comprehension building `rating_stats` keeps length and maps element by element |
| `Tracker.TierOf` | main.py:105-109 | ranks 0-2 are high, 3-5 medium, 6 and above low; very-low is never chosen |
| `Tracker.RenderPass` | main.py:101-112 | a column pass shows at most one tile per row (its meaning is in the lemmas below) |
| `Tracker.RenderPassKeys` | main.py:111-112 | a pass never changes the key set of the stored values |
| `Tracker.RenderPassCompletes` | main.py:101-112 | a pass completes exactly when every row's group has a stored value, and exactly when it shows every row; otherwise it stops at the first row whose group has no stored value (the `KeyError` of line 111), after showing the rows before it, all of which had one |
| `Tracker.RenderPassTiles` | main.py:101-109 | tile i carries row i's group and value and the tier of rank i |
| `Tracker.RenderPassUntouched` | main.py:112 | a group without a row in the pass keeps its stored value |
| `Tracker.RenderPassHighlights` | main.py:111 | with distinct groups, a tile is highlighted exactly when its value differs from the stored previous value |
| `Tracker.RenderPassWrites` | main.py:112 | with distinct groups, after the pass every shown row's value is the stored value |
| `Tracker.RenderPassUnchanging` | main.py:101-112 | a pass over values all equal to the stored ones highlights nothing and leaves the store unchanged |
| `Tracker.RenderPassSettles` | main.py:101-112 | running the same pass twice: the second run completes, highlights nothing and stores nothing new |
| `Tracker.BaselineStore` | main.py:81-85 | `previous_data[metric]` starts with exactly the tracked groups, all at 0 |
| `Tracker.FirstPassHighlightsNonzero` | main.py:81-112 | on the first pass, every row is shown and a tile is highlighted exactly when its value is nonzero |
| `Tracker.PlayerColumnRanked` | main.py:101 | with the result ascending by players, the players column runs from the most players down |
| `Tracker.RatioColumnRanked` | main.py:124 | the ratio column holds the ratio rows of the result, ordered by descending ratio, with rows of equal ratio in result order |
| `Tracker.RatingColumnRanked` | main.py:147-154 | every rating row is a group of the result with `0.7*players + 0.3*ratio`, all of them, ordered by descending rating |
| `Tracker.ColumnsGroups` | main.py:101-154 | each of the three columns lists the result's groups with the same multiplicities |
| `Tracker.RatingBounds` | main.py:150 | a rating lies between 0.7 times the players and the players, and is 0 for a group without servers |
| `Tracker.NoDataKeepsState` | main.py:89-92 | a poll with no data shows nothing and modifies no stored value |
| `Tracker.CycleKeys` | main.py:81-165 | a render cycle never changes the key set of any of the three stores |
| `Tracker.ColumnsFit` | main.py:82-165 | if the table's names are distinct and tracked, every column has distinct groups that all have stored values |
| `Tracker.CycleSettles` | main.py:87-165 | rendering an identical poll result twice: both cycles complete, the second highlights nothing and leaves `previous_data` unchanged |
| `Tracker.FirstCycleHighlightsNonzero` | main.py:81-165 | the first cycle after start-up completes and highlights exactly the tiles whose value is nonzero |
| `Tracker.ChangeTracker.constructor` | main.py:81-85 | the three stores start as the baseline: every tracked group at 0 |
| `Tracker.ChangeTracker.Store` | main.py:112 | the write changes one entry of one metric's store and nothing else |
| `Tracker.ChangeTracker.Pass` | main.py:101-112 | the loop's tiles, completion and new store are those of `RenderPass` on the old store; the other two stores are unchanged |
| `Tracker.ChangeTracker.Refresh` | main.py:88-165 | one loop iteration shows the columns of `Cycle` on the poll's result and leaves the state `Cycle` gives |

## Left out

- The HTTP request, the status check, JSON decoding and the bare `except` (main.py:44-46, 73-75) are network I/O. A poll is an `Option<seq<Server>>`, where `None` means no data.
- Decoding errors that the bare `except` turns into `None` are part of that `None`. A decoded record always has a name and a non-negative player count.
- Streamlit page configuration, CSS, HTML tiles, columns, containers and headers are presentation.
- The `st.cache_data(ttl=1.5)` cache, the endless `while True` loop, `time.sleep` and `time.time()` are left out. Repeated cycles are modelled by calling `Refresh` again, and `CycleSettles` covers two cycles on an identical result.
- The retry on a `SessionInfo` exception is left out. A `KeyError` in a pass is modelled as the cycle stopping with `completed = false`; writes made before it stay. The program ending after the re-raise is not modelled.
- Floating-point behaviour and the `:.2f` and `strftime` formatting are left out. Arithmetic is exact.
- The contents of the concrete group table are not reasoned about. Keyword matching is proved for any table.
- `Tracker.RenderPass`: its own contract only bounds the number of tiles. What a pass does is stated by the `RenderPass…` lemmas.
