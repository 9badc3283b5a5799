/**
 * The keyword-grouping aggregator of the dashboard (`get_server_stats`).
 *
 * One poll of the server directory yields a list of server records. Every
 * configured group owns a list of keywords; a server belongs to a group when its
 * name contains one of the group's keywords as a substring. For every group the
 * aggregator computes the summed player count, the number of matching servers and
 * the players-per-server ratio, and returns the rows sorted by player count.
 */
module Aggregation {
  import opened Wrappers
  import opened Seqs
  import Sorting

  /** One entry of the directory: `statusData.name` and `statusData.players`. */
  datatype Server = Server(name: string, players: nat)

  /** One entry of the group table: display name and its keywords, in order. */
  datatype Group = Group(name: string, keywords: seq<string>)

  /** One result row: group name, `total_players`, `server_count` and the ratio. */
  datatype GroupStat = GroupStat(group: string, players: nat, count: nat, ratio: real)

  /** The group table of the dashboard, in the order of its dict literal. */
  const ServerGroups: seq<Group> := [
    Group("Корвакс", ["Corvax"]),
    Group("Санрайз", ["РЫБЬЯ", "LUST", "SUNRISE", "FIRE"]),
    Group("Империал", ["Imperial"]),
    Group("Спейс Сторис", ["Stories"]),
    Group("Мёртвый Космос", ["МЁРТВЫЙ", "Spellward"]),
    Group("Резерв", ["Reserve"]),
    Group("Вайт Дрим", ["Giedi"]),
    Group("СС220", ["SS220"]),
    Group("Время Приключений", ["Время"])
  ]

  function GroupName(g: Group): string { g.name }
  function StatGroup(st: GroupStat): string { st.group }
  /** The sort key of the result: `x['Игроки']`. */
  function PlayersKey(st: GroupStat): real { st.players as real }

  // ---------------------------------------------------------------- matching

  predicate IsPrefix(p: string, s: string)
  {
    |p| <= |s| && s[..|p|] == p
  }

  /** Python's `p in s` on strings: `p` occurs in `s` as a contiguous piece (case-sensitive). */
  predicate Contains(s: string, p: string)
    decreases |s|
  {
    IsPrefix(p, s) || (|s| > 0 && Contains(s[1..], p))
  }

  /** `p` occurs in `s` starting at position `i`. */
  predicate OccursAt(s: string, p: string, i: int)
  {
    0 <= i && i + |p| <= |s| && s[i..i + |p|] == p
  }

  /** `Contains` agrees with the textbook definition of a substring occurrence. */
  lemma {:induction false} ContainsIff(s: string, p: string)
    ensures Contains(s, p) <==> exists i :: OccursAt(s, p, i)
    decreases |s|
  {
    if IsPrefix(p, s) {
      assert OccursAt(s, p, 0);
    } else if |s| > 0 {
      ContainsIff(s[1..], p);
      if Contains(s[1..], p) {
        var i :| OccursAt(s[1..], p, i);
        assert s[i + 1..i + 1 + |p|] == s[1..][i..i + |p|];
        assert OccursAt(s, p, i + 1);
      }
      if exists i :: OccursAt(s, p, i) {
        var i :| OccursAt(s, p, i);
        assert i != 0;
        assert s[1..][i - 1..i - 1 + |p|] == s[i..i + |p|];
        assert OccursAt(s[1..], p, i - 1);
      }
    } else {
      forall i ensures !OccursAt(s, p, i) {
      }
    }
  }

  /** `any(keyword in name for keyword in keywords)`. */
  predicate MatchesAny(name: string, keywords: seq<string>)
  {
    exists k :: k in keywords && Contains(name, k)
  }

  /** How many entries of `keywords` occur in `name` (a repeated keyword counts each time). */
  function KeywordHits(name: string, keywords: seq<string>): (n: nat)
    ensures n <= |keywords|
  {
    if keywords == [] then 0
    else (if Contains(name, keywords[0]) then 1 else 0) + KeywordHits(name, keywords[1..])
  }

  /** A name contains some keyword exactly when it contains at least one keyword occurrence. */
  lemma {:induction false} KeywordHitsMatches(name: string, keywords: seq<string>)
    ensures KeywordHits(name, keywords) > 0 <==> MatchesAny(name, keywords)
  {
    if keywords != [] {
      KeywordHitsMatches(name, keywords[1..]);
      assert keywords == [keywords[0]] + keywords[1..];
      if MatchesAny(name, keywords[1..]) {
        var k :| k in keywords[1..] && Contains(name, k);
        assert k in keywords;
      }
    }
  }

  // ---------------------------------------------------------------- total_players

  function Sum(xs: seq<nat>): nat
  {
    if xs == [] then 0 else xs[0] + Sum(xs[1..])
  }

  /** The values the inner `for keyword in keywords if keyword in name` yields for one server. */
  function ServerContributions(server: Server, keywords: seq<string>): seq<nat>
  {
    if keywords == [] then []
    else (if Contains(server.name, keywords[0]) then [server.players] else [])
         + ServerContributions(server, keywords[1..])
  }

  /** The values the whole generator of `total_players` yields, server by server. */
  function Contributions(servers: seq<Server>, keywords: seq<string>): seq<nat>
  {
    if servers == [] then []
    else ServerContributions(servers[0], keywords) + Contributions(servers[1..], keywords)
  }

  /** `total_players = sum(players for server in servers for keyword in keywords if keyword in name)`. */
  function TotalPlayers(servers: seq<Server>, keywords: seq<string>): nat
  {
    Sum(Contributions(servers, keywords))
  }

  /** Reference definition: every server weighted by the number of keywords it contains. */
  function WeightedPlayers(servers: seq<Server>, keywords: seq<string>): nat
  {
    if servers == [] then 0
    else servers[0].players * KeywordHits(servers[0].name, keywords) + WeightedPlayers(servers[1..], keywords)
  }

  lemma {:induction false} SumConcat(a: seq<nat>, b: seq<nat>)
    ensures Sum(a + b) == Sum(a) + Sum(b)
  {
    if a == [] {
      assert a + b == b;
    } else {
      SumConcat(a[1..], b);
      assert (a + b)[1..] == a[1..] + b;
    }
  }

  lemma MulSucc(p: nat, h: nat)
    ensures p * (1 + h) == p + p * h
  {
  }

  lemma {:induction false} ServerContributionsSum(server: Server, keywords: seq<string>)
    ensures Sum(ServerContributions(server, keywords)) == server.players * KeywordHits(server.name, keywords)
  {
    if keywords != [] {
      var p := server.players;
      var rest := ServerContributions(server, keywords[1..]);
      var h := KeywordHits(server.name, keywords[1..]);
      ServerContributionsSum(server, keywords[1..]);
      if Contains(server.name, keywords[0]) {
        assert ServerContributions(server, keywords) == [p] + rest;
        SumConcat([p], rest);
        assert KeywordHits(server.name, keywords) == 1 + h;
        MulSucc(p, h);
      } else {
        assert ServerContributions(server, keywords) == rest;
        assert KeywordHits(server.name, keywords) == h;
      }
    }
  }

  /** A server is added once per keyword of the group its name contains: no de-duplication. */
  lemma {:induction false} TotalPlayersWeighted(servers: seq<Server>, keywords: seq<string>)
    ensures TotalPlayers(servers, keywords) == WeightedPlayers(servers, keywords)
  {
    if servers != [] {
      TotalPlayersWeighted(servers[1..], keywords);
      ServerContributionsSum(servers[0], keywords);
      SumConcat(ServerContributions(servers[0], keywords), Contributions(servers[1..], keywords));
    }
  }

  lemma {:induction false} WeightedPlayersConcat(a: seq<Server>, b: seq<Server>, keywords: seq<string>)
    ensures WeightedPlayers(a + b, keywords) == WeightedPlayers(a, keywords) + WeightedPlayers(b, keywords)
  {
    if a == [] {
      assert a + b == b;
    } else {
      WeightedPlayersConcat(a[1..], b, keywords);
      assert (a + b)[1..] == a[1..] + b;
    }
  }

  /**
   * A server whose name holds two keywords of one group is added twice: the group's
   * total exceeds the players of the whole directory.
   */
  lemma DoubleCounted()
    ensures TotalPlayers([Server("SUNRISE FIRE", 10)], ["SUNRISE", "FIRE"]) == 20
    ensures ServerCount([Server("SUNRISE FIRE", 10)], ["SUNRISE", "FIRE"]) == 1
  {
    var name := "SUNRISE FIRE";
    assert IsPrefix("SUNRISE", name);
    assert OccursAt(name, "FIRE", 8);
    ContainsIff(name, "FIRE");
    assert KeywordHits(name, ["FIRE"]) == 1;
    assert KeywordHits(name, ["SUNRISE", "FIRE"]) == 2;
    TotalPlayersWeighted([Server(name, 10)], ["SUNRISE", "FIRE"]);
    assert "SUNRISE" in ["SUNRISE", "FIRE"];
  }

  // ---------------------------------------------------------------- server_count

  /** `[server for server in servers if any(keyword in name for keyword in keywords)]`. */
  function MatchingServers(servers: seq<Server>, keywords: seq<string>): (r: seq<Server>)
    ensures |r| <= |servers|
  {
    if servers == [] then []
    else (if MatchesAny(servers[0].name, keywords) then [servers[0]] else [])
         + MatchingServers(servers[1..], keywords)
  }

  /** The list comprehension keeps only servers of the input that match a keyword. */
  lemma {:induction false} MatchingServersSound(servers: seq<Server>, keywords: seq<string>)
    ensures forall s :: s in MatchingServers(servers, keywords) ==> s in servers && MatchesAny(s.name, keywords)
  {
    if servers != [] {
      MatchingServersSound(servers[1..], keywords);
      assert servers == [servers[0]] + servers[1..];
    }
  }

  /** `server_count`: the length of that list. */
  function ServerCount(servers: seq<Server>, keywords: seq<string>): nat
  {
    |MatchingServers(servers, keywords)|
  }

  /** Reference definition: the positions of the servers that match at least one keyword. */
  function MatchingIndices(servers: seq<Server>, keywords: seq<string>): set<nat>
  {
    set i: nat | i < |servers| && MatchesAny(servers[i].name, keywords)
  }

  lemma {:induction false} MatchingServersConcat(a: seq<Server>, b: seq<Server>, keywords: seq<string>)
    ensures MatchingServers(a + b, keywords) == MatchingServers(a, keywords) + MatchingServers(b, keywords)
  {
    if a == [] {
      assert a + b == b;
    } else {
      var head := if MatchesAny(a[0].name, keywords) then [a[0]] else [];
      MatchingServersConcat(a[1..], b, keywords);
      assert (a + b)[0] == a[0];
      assert (a + b)[1..] == a[1..] + b;
      assert MatchingServers(a + b, keywords) == head + MatchingServers(a[1..] + b, keywords);
      assert MatchingServers(a, keywords) == head + MatchingServers(a[1..], keywords);
    }
  }

  lemma MatchingIndicesSnoc(init: seq<Server>, last: Server, keywords: seq<string>)
    ensures MatchingIndices(init + [last], keywords)
         == MatchingIndices(init, keywords) + (if MatchesAny(last.name, keywords) then {|init|} else {})
  {
    var servers := init + [last];
    forall i: nat ensures i in MatchingIndices(servers, keywords) <==>
      i in MatchingIndices(init, keywords) + (if MatchesAny(last.name, keywords) then {|init|} else {})
    {
      if i < |init| {
        assert servers[i] == init[i];
      }
    }
  }

  /** Every server that matches counts exactly once, however many keywords it contains. */
  lemma {:induction false} ServerCountIsMatchingIndices(servers: seq<Server>, keywords: seq<string>)
    ensures ServerCount(servers, keywords) == |MatchingIndices(servers, keywords)|
    decreases |servers|
  {
    if servers == [] {
      assert MatchingIndices(servers, keywords) == {};
    } else {
      var n := |servers| - 1;
      var init, last := servers[..n], servers[n];
      assert servers == init + [last];
      ServerCountIsMatchingIndices(init, keywords);
      MatchingServersConcat(init, [last], keywords);
      MatchingIndicesSnoc(init, last, keywords);
      assert n !in MatchingIndices(init, keywords);
      assert MatchingServers([last], keywords) == if MatchesAny(last.name, keywords) then [last] else [];
    }
  }

  /** A group none of whose keywords occurs in any server name has no players. */
  lemma {:induction false} NoMatchNoPlayers(servers: seq<Server>, keywords: seq<string>)
    requires ServerCount(servers, keywords) == 0
    ensures TotalPlayers(servers, keywords) == 0
  {
    TotalPlayersWeighted(servers, keywords);
    UnmatchedWeightZero(servers, keywords);
  }

  lemma {:induction false} UnmatchedWeightZero(servers: seq<Server>, keywords: seq<string>)
    requires MatchingServers(servers, keywords) == []
    ensures WeightedPlayers(servers, keywords) == 0
  {
    if servers != [] {
      KeywordHitsMatches(servers[0].name, keywords);
      UnmatchedWeightZero(servers[1..], keywords);
    }
  }

  // ---------------------------------------------------------------- ratio and rows

  /** `total / count if count > 0 else 0`, with exact division. */
  function PlayerRatio(total: nat, count: nat): (r: real)
    ensures r >= 0.0
    ensures count == 0 ==> r == 0.0
    ensures count > 0 ==> r * (count as real) == total as real && r <= total as real
  {
    if count > 0 then (total as real) / (count as real) else 0.0
  }

  /** The row the loop appends for one group. */
  function StatOf(servers: seq<Server>, g: Group): GroupStat
  {
    var total := TotalPlayers(servers, g.keywords);
    var count := ServerCount(servers, g.keywords);
    GroupStat(g.name, total, count, PlayerRatio(total, count))
  }

  /** What a row promises: a non-negative ratio, at most one count per server, no division by zero. */
  lemma StatOfProperties(servers: seq<Server>, g: Group)
    ensures var st := StatOf(servers, g);
      && st.group == g.name
      && st.players == WeightedPlayers(servers, g.keywords)
      && st.count == |MatchingIndices(servers, g.keywords)| <= |servers|
      && 0.0 <= st.ratio <= st.players as real
      && (st.count == 0 ==> st.players == 0 && st.ratio == 0.0)
      && st.ratio == PlayerRatio(st.players, st.count)
  {
    var total, count := TotalPlayers(servers, g.keywords), ServerCount(servers, g.keywords);
    assert StatOf(servers, g) == GroupStat(g.name, total, count, PlayerRatio(total, count));
    TotalPlayersWeighted(servers, g.keywords);
    ServerCountIsMatchingIndices(servers, g.keywords);
    if count == 0 {
      NoMatchNoPlayers(servers, g.keywords);
    }
  }

  /** A server whose name contains none of a group's keywords changes nothing in that group's row. */
  lemma UnmatchedServerIgnored(a: seq<Server>, s: Server, b: seq<Server>, g: Group)
    requires !MatchesAny(s.name, g.keywords)
    ensures StatOf(a + [s] + b, g) == StatOf(a + b, g)
  {
    var kws := g.keywords;
    KeywordHitsMatches(s.name, kws);
    TotalPlayersWeighted(a + [s] + b, kws);
    TotalPlayersWeighted(a + b, kws);
    WeightedPlayersConcat(a + [s], b, kws);
    WeightedPlayersConcat(a, [s], kws);
    WeightedPlayersConcat(a, b, kws);
    assert [s][1..] == [];
    MatchingServersConcat(a + [s], b, kws);
    MatchingServersConcat(a, [s], kws);
    MatchingServersConcat(a, b, kws);
  }

  /** The rows in table order, as the `for ... stats.append(...)` loop builds them. */
  function Collected(servers: seq<Server>, groups: seq<Group>): (r: seq<GroupStat>)
    ensures |r| == |groups|
    ensures forall i :: 0 <= i < |groups| ==> r[i] == StatOf(servers, groups[i])
  {
    if groups == [] then []
    else Collected(servers, groups[..|groups| - 1]) + [StatOf(servers, groups[|groups| - 1])]
  }

  /** The result of one poll: no data stays no data, otherwise the rows sorted ascending by players. */
  function ServerStats(fetched: Option<seq<Server>>, groups: seq<Group>): Option<seq<GroupStat>>
  {
    match fetched
    case None => None
    case Some(servers) => Some(Sorting.SortBy(Collected(servers, groups), PlayersKey, false))
  }

  /** `get_server_stats` once the directory has answered (or not). */
  method GetServerStats(fetched: Option<seq<Server>>, groups: seq<Group>) returns (result: Option<seq<GroupStat>>)
    ensures result.None? <==> fetched.None?
    ensures result == ServerStats(fetched, groups)
  {
    if fetched.None? {
      return None;
    }
    var servers := fetched.value;
    var stats: seq<GroupStat> := [];
    var i := 0;
    while i < |groups|
      invariant 0 <= i <= |groups|
      invariant stats == Collected(servers, groups[..i])
    {
      var keywords := groups[i].keywords;
      var total := TotalPlayers(servers, keywords);
      var count := ServerCount(servers, keywords);
      stats := stats + [GroupStat(groups[i].name, total, count, PlayerRatio(total, count))];
      assert groups[..i + 1][..i] == groups[..i];
      i := i + 1;
    }
    assert groups[..i] == groups;
    result := Some(Sorting.SortBy(stats, PlayersKey, false));
  }

  /**
   * One row per configured group, sorted non-decreasingly by players, a permutation of
   * the rows in table order, carrying exactly the table's group names; equal player counts
   * keep table order.
   */
  lemma ServerStatsShape(servers: seq<Server>, groups: seq<Group>)
    ensures ServerStats(Some(servers), groups).Some?
    ensures var r := ServerStats(Some(servers), groups).value;
      && |r| == |groups|
      && Sorting.Ordered(r, PlayersKey, false)
      && multiset(r) == multiset(Collected(servers, groups))
      && multiset(MapSeq(r, StatGroup)) == multiset(MapSeq(groups, GroupName))
      && forall v :: Sorting.WithKey(r, PlayersKey, v) == Sorting.WithKey(Collected(servers, groups), PlayersKey, v)
  {
    var c := Collected(servers, groups);
    Sorting.SortByOrdered(c, PlayersKey, false);
    Sorting.SortByPermutation(c, PlayersKey, false);
    Sorting.SortByMapMultiset(c, PlayersKey, false, StatGroup);
    assert MapSeq(c, StatGroup) == MapSeq(groups, GroupName);
    forall v ensures Sorting.WithKey(Sorting.SortBy(c, PlayersKey, false), PlayersKey, v) == Sorting.WithKey(c, PlayersKey, v) {
      Sorting.SortByStable(c, PlayersKey, false, v);
    }
  }

  /** A server matching no group at all leaves the whole result unchanged. */
  lemma UnmatchedServerIgnoredEverywhere(a: seq<Server>, s: Server, b: seq<Server>, groups: seq<Group>)
    requires forall g :: g in groups ==> !MatchesAny(s.name, g.keywords)
    ensures ServerStats(Some(a + [s] + b), groups) == ServerStats(Some(a + b), groups)
  {
    forall i | 0 <= i < |groups| ensures StatOf(a + [s] + b, groups[i]) == StatOf(a + b, groups[i]) {
      UnmatchedServerIgnored(a, s, b, groups[i]);
    }
    assert Collected(a + [s] + b, groups) == Collected(a + b, groups);
  }
}
