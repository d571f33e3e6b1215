/** Node choice and region normalisation of internal/service/scheduling.go. */
module Scheduling {
  import opened Text
  import opened Ranking
  import opened Wrappers

  datatype Node = Node(id: nat, code: string, region: string, transport: string, status: string,
                       heartbeat: Option<int>, isDefault: bool, schedulable: bool)

  const LOCAL := "local"
  const LOCAL_GRACE_SECONDS := 900
  const REMOTE_GRACE_SECONDS := 90

  predicate HeartbeatFresh(n: Node, now: int) {
    n.heartbeat.Some?
    && n.heartbeat.value >= now - if n.transport == LOCAL then LOCAL_GRACE_SECONDS else REMOTE_GRACE_SECONDS
  }

  predicate Online(n: Node, now: int) {
    n.status == "online" && HeartbeatFresh(n, now)
  }

  // ---------- rank ----------

  datatype Rank = Rank(offline: int, statusOff: int, local: int, notDefault: int, id: nat)

  function BoolToInt(b: bool): int { if b then 1 else 0 }

  function RankOf(n: Node, now: int): Rank {
    Rank(BoolToInt(!Online(n, now)), BoolToInt(n.status != "online"), BoolToInt(n.transport == LOCAL),
         BoolToInt(!n.isDefault), n.id)
  }

  predicate RankLess(x: Rank, y: Rank) {
    if x.offline != y.offline then x.offline < y.offline
    else if x.statusOff != y.statusOff then x.statusOff < y.statusOff
    else if x.local != y.local then x.local < y.local
    else if x.notDefault != y.notDefault then x.notDefault < y.notDefault
    else x.id < y.id
  }

  function NodeBefore(now: int): (Node, Node) -> bool {
    (x, y) => RankLess(RankOf(x, now), RankOf(y, now))
  }

  /** `ORDER BY is_default DESC, id ASC`. */
  function DefaultFirst(): (Node, Node) -> bool {
    (x: Node, y: Node) => if x.isDefault != y.isDefault then x.isDefault else x.id < y.id
  }

  // ---------- what the choice is ----------

  ghost predicate UniqueIds(nodes: seq<Node>) {
    forall m, n :: m in nodes && n in nodes && m.id == n.id ==> m == n
  }

  /** n precedes every other node of the pool. */
  ghost predicate IsLeast(pool: seq<Node>, before: (Node, Node) -> bool, n: Node) {
    n in pool && forall m :: m in pool && m != n ==> before(n, m)
  }

  function Schedulable(table: seq<Node>): seq<Node> { Select(table, (n: Node) => n.schedulable) }

  function InRegion(nodes: seq<Node>, region: string): seq<Node> {
    if region == "" then nodes else Select(nodes, (n: Node) => n.region == region)
  }

  function OfMode(pool: seq<Node>, mode: string): seq<Node> {
    var wanted :=
      if mode == "local" then Select(pool, (n: Node) => n.transport == LOCAL)
      else if mode == "remote" then Select(pool, (n: Node) => n.transport != LOCAL)
      else pool;
    if |wanted| > 0 then wanted else pool
  }

  /** The least schedulable node of the region; of all regions when the region has none; and the first of
      the whole table (default first) when nothing is schedulable. */
  ghost predicate IsDefaultChoice(table: seq<Node>, region: string, now: int, node: Option<Node>) {
    var all := Schedulable(table);
    if table == [] then node == None
    else
      && node.Some?
      && (if all == [] then IsLeast(table, DefaultFirst(), node.value)
          else if InRegion(all, region) == [] then IsLeast(all, NodeBefore(now), node.value)
          else IsLeast(InRegion(all, region), NodeBefore(now), node.value))
  }

  ghost predicate IsSingleChoice(table: seq<Node>, region: string, mode: string, now: int, node: Option<Node>) {
    var pool := OfMode(InRegion(Schedulable(table), region), mode);
    if pool == [] then IsDefaultChoice(table, region, now, node)
    else node.Some? && IsLeast(pool, NodeBefore(now), node.value)
  }

  // ---------- lemmas ----------

  lemma {:induction false} SelectMembers<T>(s: seq<T>, keep: T -> bool)
    ensures forall x :: x in Select(s, keep) <==> x in s && keep(x)
    ensures |Select(s, keep)| <= |s|
    decreases |s|
  {
    if s != [] {
      SelectMembers(s[..|s| - 1], keep);
      assert s == s[..|s| - 1] + [s[|s| - 1]];
    }
  }

  lemma PoolMembers(table: seq<Node>, region: string)
    ensures forall n :: n in Schedulable(table) <==> n in table && n.schedulable
    ensures forall n ::
      n in InRegion(Schedulable(table), region) <==> n in table && n.schedulable && (region == "" || n.region == region)
  {
    SelectMembers(table, (n: Node) => n.schedulable);
    SelectMembers(Schedulable(table), (n: Node) => n.region == region);
  }

  lemma OrdersAreStrict(now: int)
    ensures StrictWeakOrder(NodeBefore(now)) && StrictWeakOrder(DefaultFirst())
    ensures forall x: Node, y: Node :: x.id != y.id ==> NodeBefore(now)(x, y) || NodeBefore(now)(y, x)
    ensures forall x: Node, y: Node :: x.id != y.id ==> DefaultFirst()(x, y) || DefaultFirst()(y, x)
  {
    forall x, y, z ensures NodeBefore(now)(x, z) ==> NodeBefore(now)(x, y) || NodeBefore(now)(y, z) {
      var a, b, c := RankOf(x, now), RankOf(y, now), RankOf(z, now);
      if RankLess(a, c) && !RankLess(a, b) { assert RankLess(b, c); }
    }
  }

  /** A pool has one least node. */
  lemma LeastUnique(p: seq<Node>, q: seq<Node>, before: (Node, Node) -> bool, x: Node, y: Node)
    requires StrictWeakOrder(before)
    requires forall n :: n in p <==> n in q
    requires IsLeast(p, before, x) && IsLeast(q, before, y)
    ensures x == y
  {
    assert y in p && x in q;
    assert !before(x, x);
    assert before(x, y) && before(y, x) ==> before(x, x);
  }

  /** The choice does not depend on the order of the rows. */
  lemma ChoiceIgnoresRowOrder(t: seq<Node>, u: seq<Node>, region: string, now: int, x: Option<Node>, y: Option<Node>)
    requires forall n :: n in t <==> n in u
    requires IsDefaultChoice(t, region, now, x) && IsDefaultChoice(u, region, now, y)
    ensures x == y
  {
    OrdersAreStrict(now);
    PoolMembers(t, region);
    PoolMembers(u, region);
    SameEmptiness(t, u);
    SameEmptiness(Schedulable(t), Schedulable(u));
    SameEmptiness(InRegion(Schedulable(t), region), InRegion(Schedulable(u), region));
    if t == [] {
    } else if Schedulable(t) == [] {
      LeastUnique(t, u, DefaultFirst(), x.value, y.value);
    } else if InRegion(Schedulable(t), region) == [] {
      LeastUnique(Schedulable(t), Schedulable(u), NodeBefore(now), x.value, y.value);
    } else {
      LeastUnique(InRegion(Schedulable(t), region), InRegion(Schedulable(u), region), NodeBefore(now), x.value, y.value);
    }
  }

  lemma SameEmptiness<T>(s: seq<T>, t: seq<T>)
    requires forall n :: n in s <==> n in t
    ensures s == [] <==> t == []
  {
    if s != [] { assert s[0] in t; }
    if t != [] { assert t[0] in s; }
  }

  /** In auto mode both choosers mean the same node. */
  lemma AutoModeAgrees(table: seq<Node>, region: string, now: int, single: Option<Node>, default: Option<Node>)
    requires IsSingleChoice(table, region, "auto", now, single)
    requires IsDefaultChoice(table, region, now, default)
    ensures IsDefaultChoice(table, region, now, single) && single == default
  {
    PoolMembers(table, region);
    ChoiceIgnoresRowOrder(table, table, region, now, single, default) by {
      var pool := InRegion(Schedulable(table), region);
      assert OfMode(pool, "auto") == pool;
      if pool != [] {
        assert pool[0] in Schedulable(table) && pool[0] in table;
      }
    }
  }

  /** Keeping only the online nodes, when there are any, does not change the least node. */
  lemma OnlineFilterIsFree(pool: seq<Node>, now: int, n: Node)
    requires IsLeast(Select(pool, (m: Node) => Online(m, now)), NodeBefore(now), n)
    ensures IsLeast(pool, NodeBefore(now), n)
  {
    SelectMembers(pool, (m: Node) => Online(m, now));
    forall m | m in pool && m != n ensures NodeBefore(now)(n, m) {
      if !Online(m, now) {
        assert RankOf(n, now).offline == 0 && RankOf(m, now).offline == 1;
      }
    }
  }

  // ---------- the choice, read off the nodes ----------

  /** Reported online, and heard of within 15 minutes (a local node) or 90 seconds (any other). */
  predicate Alive(n: Node, now: int) {
    n.status == "online" && n.heartbeat.Some? && now - n.heartbeat.value <= if n.transport == "local" then 900 else 90
  }

  /** Alive before not, then reported online before not, then remote before local, then default before not, then by
      id. */
  predicate Better(x: Node, y: Node, now: int) {
    if Alive(x, now) != Alive(y, now) then Alive(x, now)
    else if (x.status == "online") != (y.status == "online") then x.status == "online"
    else if (x.transport == "local") != (y.transport == "local") then y.transport == "local"
    else if x.isDefault != y.isDefault then x.isDefault
    else x.id < y.id
  }

  lemma RankIsBetter(x: Node, y: Node, now: int)
    ensures NodeBefore(now)(x, y) <==> Better(x, y, now)
  {
  }

  /** A node that may be chosen for the region; an empty region stands for all. */
  predicate Eligible(table: seq<Node>, region: string, n: Node) {
    n in table && n.schedulable && (region == "" || n.region == region)
  }

  predicate Suits(n: Node, mode: string) {
    (mode == "local" ==> n.transport == "local") && (mode == "remote" ==> n.transport != "local")
  }

  lemma OfModeRight(pool: seq<Node>, mode: string)
    ensures forall n :: n in OfMode(pool, mode) <==> n in pool && (Suits(n, mode) || forall m :: m in pool ==> !Suits(m, mode))
  {
    SelectMembers(pool, (n: Node) => n.transport == LOCAL);
    SelectMembers(pool, (n: Node) => n.transport != LOCAL);
    var wanted :=
      if mode == "local" then Select(pool, (n: Node) => n.transport == LOCAL)
      else if mode == "remote" then Select(pool, (n: Node) => n.transport != LOCAL)
      else pool;
    assert forall n :: n in wanted <==> n in pool && Suits(n, mode);
    if wanted != [] { assert wanted[0] in wanted; }
  }

  /** The node for an execution: eligible when one is, of the mode when an eligible one is, and better than every
      other such node. So an online remote node beats a local one unless the mode asks for local nodes and there
      are some. */
  lemma SingleChoiceMeans(table: seq<Node>, region: string, mode: string, now: int, n: Node, m: Node)
    requires IsSingleChoice(table, region, mode, now, Some(n)) && Eligible(table, region, m)
    ensures Eligible(table, region, n)
    ensures Suits(m, mode) ==> Suits(n, mode)
    ensures m != n && (Suits(m, mode) || !Suits(n, mode)) ==> Better(n, m, now)
    ensures Alive(m, now) && m.transport != "local" && mode != "local" ==> Alive(n, now) && n.transport != "local"
  {
    var pool := InRegion(Schedulable(table), region);
    PoolMembers(table, region);
    assert m in pool;
    OfModeRight(pool, mode);
    hide OfMode, InRegion, Schedulable;
    RankIsBetter(n, m, now);
  }

  lemma DefaultChoiceMeans(table: seq<Node>, region: string, now: int, n: Node, m: Node)
    requires IsDefaultChoice(table, region, now, Some(n)) && m in table
    ensures n in table
    ensures Eligible(table, region, m) ==> Eligible(table, region, n) && (m != n ==> Better(n, m, now))
    ensures (forall x :: !Eligible(table, region, x)) && Eligible(table, "", m) ==>
      Eligible(table, "", n) && (m != n ==> Better(n, m, now))
    ensures (forall x :: !Eligible(table, "", x)) && m != n ==>
      if n.isDefault != m.isDefault then n.isDefault else n.id < m.id
  {
    var all, here := Schedulable(table), InRegion(Schedulable(table), region);
    PoolMembers(table, region);
    RankIsBetter(n, m, now);
    assert forall x :: Eligible(table, "", x) <==> x in all;
    assert forall x :: Eligible(table, region, x) <==> x in here;
    SelectEmpty(table);
    RegionEmpty(all, region);
    hide InRegion, Schedulable, Better, NodeBefore, Eligible;
    if all == [] && m != n {
      assert DefaultFirst()(n, m);
    }
  }

  lemma SelectEmpty(table: seq<Node>)
    ensures Schedulable(table) == [] <==> forall x :: x !in Schedulable(table)
  {
    if Schedulable(table) != [] { assert Schedulable(table)[0] in Schedulable(table); }
  }

  lemma RegionEmpty(nodes: seq<Node>, region: string)
    ensures InRegion(nodes, region) == [] <==> forall x :: x !in InRegion(nodes, region)
  {
    if InRegion(nodes, region) != [] { assert InRegion(nodes, region)[0] in InRegion(nodes, region); }
  }

  // ---------- the code ----------

  method Filter(nodes: seq<Node>, keep: Node -> bool) returns (out: seq<Node>)
    ensures out == Select(nodes, keep)
  {
    out := [];
    for i := 0 to |nodes|
      invariant out == Select(nodes[..i], keep)
    {
      assert nodes[..i + 1][..i] == nodes[..i];
      if keep(nodes[i]) {
        out := out + [nodes[i]];
      }
    }
    assert nodes[..|nodes|] == nodes;
  }

  /** `sort.Slice(pool, before); return &pool[0]`. */
  method FirstInOrder<T(!new)>(pool: seq<T>, before: (T, T) -> bool) returns (first: T, sorted: seq<T>)
    requires |pool| > 0 && StrictWeakOrder(before)
    ensures first in pool && forall m :: m in pool ==> !before(m, first)
    ensures |sorted| == |pool| && first == sorted[0] && multiset(sorted) == multiset(pool) && Sorted(sorted, before)
  {
    var slice := new T[|pool|](i requires 0 <= i < |pool| => pool[i]);
    assert slice[..] == pool;
    InsertionPass(slice, before);
    sorted := slice[..];
    first := sorted[0];
    InsertAllSorts(pool, before);
    InsertAllPermutes(pool, before);
    assert first in multiset(sorted);
    forall m | m in pool ensures !before(m, first) {
      assert m in multiset(sorted);
      var k :| 0 <= k < |sorted| && sorted[k] == m;
      assert !before(first, first);
    }
  }

  method FirstByRank(pool: seq<Node>, now: int) returns (n: Node)
    requires |pool| > 0 && UniqueIds(pool)
    ensures IsLeast(pool, NodeBefore(now), n)
  {
    OrdersAreStrict(now);
    var rest;
    n, rest := FirstInOrder(pool, NodeBefore(now));
  }

  method GetDefaultNode(table: seq<Node>, region: string, now: int) returns (node: Option<Node>)
    requires UniqueIds(table)
    ensures IsDefaultChoice(table, region, now, node)
  {
    PoolMembers(table, region);
    var nodes := Filter(table, (n: Node) => n.schedulable);
    if |nodes| == 0 {
      if |table| == 0 {
        return None;
      }
      OrdersAreStrict(now);
      var first, rest := FirstInOrder(table, DefaultFirst());
      return Some(first);
    }
    assert nodes[0] in table;
    var pool := nodes;
    if region != "" {
      var filtered := Filter(nodes, (n: Node) => n.region == region);
      if |filtered| > 0 {
        pool := filtered;
      }
    }
    var best := FirstByRank(pool, now);
    node := Some(best);
  }

  method PreferMode(all: seq<Node>, mode: string) returns (pool: seq<Node>)
    ensures pool == OfMode(all, mode)
  {
    pool := all;
    if mode == "local" {
      var locals := Filter(pool, (n: Node) => n.transport == LOCAL);
      if |locals| > 0 {
        pool := locals;
      }
    } else if mode == "remote" {
      var remotes := Filter(pool, (n: Node) => n.transport != LOCAL);
      if |remotes| > 0 {
        pool := remotes;
      }
    }
  }

  method PreferOnline(pool: seq<Node>, now: int) returns (best: Node)
    requires |pool| > 0 && UniqueIds(pool)
    ensures IsLeast(pool, NodeBefore(now), best)
  {
    var online := Filter(pool, (m: Node) => Online(m, now));
    SelectMembers(pool, (m: Node) => Online(m, now));
    if |online| == 0 {
      best := FirstByRank(pool, now);
    } else {
      best := FirstByRank(online, now);
      OnlineFilterIsFree(pool, now, best);
    }
  }

  lemma OfModeMembers(pool: seq<Node>, mode: string)
    ensures forall n :: n in OfMode(pool, mode) ==> n in pool
  {
    SelectMembers(pool, (n: Node) => n.transport == LOCAL);
    SelectMembers(pool, (n: Node) => n.transport != LOCAL);
  }

  method GetSingleExecutionNode(table: seq<Node>, region: string, mode: string, now: int) returns (node: Option<Node>)
    requires UniqueIds(table)
    ensures IsSingleChoice(table, region, mode, now, node)
  {
    PoolMembers(table, region);
    var pool := Filter(table, (n: Node) => n.schedulable);
    if region != "" {
      pool := Filter(pool, (n: Node) => n.region == region);
    }
    OfModeMembers(pool, mode);
    pool := PreferMode(pool, mode);
    if |pool| == 0 {
      node := GetDefaultNode(table, region, now);
    } else {
      var best := PreferOnline(pool, now);
      node := Some(best);
    }
  }

  // ---------- regions ----------

  datatype Region = Region(id: nat, code: string, displayOrder: int)

  /** The requested codes that are active, first occurrences only, in the order requested. */
  function KeepActive(codes: seq<string>, active: set<string>): (kept: seq<string>)
    ensures |kept| <= |codes| && Distinct(kept)
    ensures forall c :: c in kept <==> c in codes && c in active
  {
    if codes == [] then []
    else
      var init, c := KeepActive(codes[..|codes| - 1], active), codes[|codes| - 1];
      assert codes == codes[..|codes| - 1] + [c];
      if c in active && c !in init then init + [c] else init
  }

  /** What comes later in the result was requested later: before any mention of it, what precedes it in the result
      has been mentioned. */
  ghost predicate InOrderOf(codes: seq<string>, kept: seq<string>) {
    forall i, j :: 0 <= i < j < |kept| ==> MentionedBefore(codes, kept[i], kept[j])
  }

  ghost predicate MentionedBefore(codes: seq<string>, a: string, b: string) {
    forall q :: 0 <= q < |codes| && codes[q] == b ==> a in codes[..q]
  }

  lemma {:induction false} KeepsOrder(codes: seq<string>, active: set<string>)
    ensures InOrderOf(codes, KeepActive(codes, active))
    decreases |codes|
  {
    if codes != [] {
      var n := |codes| - 1;
      var init, kept := KeepActive(codes[..n], active), KeepActive(codes, active);
      KeepsOrder(codes[..n], active);
      forall i, j | 0 <= i < j < |kept| ensures MentionedBefore(codes, kept[i], kept[j]) {
        assert kept[i] == init[i] && init[i] in init;
        if j < |init| {
          assert MentionedBefore(codes[..n], init[i], init[j]);
          MentionedLater(codes, init[i], init[j]);
        } else {
          assert codes[n] !in codes[..n];
          OnlyAtTheEnd(codes, init[i]);
        }
      }
    }
  }

  lemma MentionedLater(codes: seq<string>, a: string, b: string)
    requires codes != [] && MentionedBefore(codes[..|codes| - 1], a, b) && a in codes[..|codes| - 1]
    ensures MentionedBefore(codes, a, b)
  {
    var n := |codes| - 1;
    forall q | 0 <= q < |codes| && codes[q] == b ensures a in codes[..q] {
      if q < n {
        assert codes[..n][q] == b && codes[..n][..q] == codes[..q];
      }
    }
  }

  lemma OnlyAtTheEnd(codes: seq<string>, a: string)
    requires codes != [] && codes[|codes| - 1] !in codes[..|codes| - 1] && a in codes[..|codes| - 1]
    ensures MentionedBefore(codes, a, codes[|codes| - 1])
  {
    var n := |codes| - 1;
    assert forall q :: 0 <= q < n ==> codes[q] in codes[..n];
  }

  datatype Standing = Standing(region: Region, onlineRemote: bool, online: bool, hasNodes: bool)

  /** What the node loop of defaultRegionCodes finds out about a region. */
  ghost predicate Describes(s: Standing, nodes: seq<Node>, now: int) {
    && (s.hasNodes <==> exists n :: n in nodes && n.region == s.region.code)
    && (s.online <==> exists n :: n in nodes && n.region == s.region.code && Online(n, now))
    && (s.onlineRemote <==> exists n :: n in nodes && n.region == s.region.code && Online(n, now) && n.transport != LOCAL)
  }

  predicate StandsBefore(a: Standing, b: Standing) {
    if a.onlineRemote != b.onlineRemote then a.onlineRemote
    else if a.online != b.online then a.online
    else if a.hasNodes != b.hasNodes then a.hasNodes
    else if (a.region.code == "global") != (b.region.code == "global") then b.region.code == "global"
    else if a.region.displayOrder != b.region.displayOrder then a.region.displayOrder < b.region.displayOrder
    else a.region.id < b.region.id
  }

  ghost predicate IsBestStanding(best: Standing, regions: seq<Region>, nodes: seq<Node>, now: int) {
    && best.region in regions && Describes(best, nodes, now)
    && forall s: Standing :: s.region in regions && Describes(s, nodes, now) ==> !StandsBefore(s, best)
  }

  method StandingOf(r: Region, nodes: seq<Node>, now: int) returns (s: Standing)
    ensures s.region == r && Describes(s, nodes, now)
  {
    s := Standing(r, false, false, false);
    for i := 0 to |nodes|
      invariant s.region == r && Describes(s, nodes[..i], now)
    {
      assert nodes[..i + 1] == nodes[..i] + [nodes[i]];
      assert forall n :: n in nodes[..i + 1] <==> n in nodes[..i] || n == nodes[i];
      var n := nodes[i];
      if n.region == r.code {
        s := s.(hasNodes := true);
        if Online(n, now) {
          s := s.(online := true);
          if n.transport != LOCAL {
            s := s.(onlineRemote := true);
          }
        }
      }
    }
    assert nodes[..|nodes|] == nodes;
  }

  /** The standing of every region, in the order of the regions. */
  ghost predicate Standings(ranks: seq<Standing>, regions: seq<Region>, nodes: seq<Node>, now: int) {
    |ranks| == |regions|
    && forall k :: 0 <= k < |ranks| ==> ranks[k].region == regions[k] && Describes(ranks[k], nodes, now)
  }

  /** The codes are those of the best standing regions, best first: of all standings put in order, the first. */
  ghost predicate AreBest(out: seq<string>, ranks: seq<Standing>, sorted: seq<Standing>) {
    && multiset(sorted) == multiset(ranks) && Sorted(sorted, StandsBefore) && |out| <= |sorted|
    && forall k :: 0 <= k < |out| ==> out[k] == sorted[k].region.code
  }

  method RankRegions(regions: seq<Region>, nodes: seq<Node>, now: int) returns (ranks: seq<Standing>)
    ensures Standings(ranks, regions, nodes, now)
  {
    hide Describes;
    ranks := [];
    for i := 0 to |regions|
      invariant |ranks| == i && forall k :: 0 <= k < i ==> ranks[k].region == regions[k] && Describes(ranks[k], nodes, now)
    {
      var s := StandingOf(regions[i], nodes, now);
      ranks := ranks + [s];
    }
  }

  method TakeCodes(sorted: seq<Standing>, size: nat) returns (out: seq<string>)
    ensures |out| == Min(|sorted|, size)
    ensures forall k :: 0 <= k < |out| ==> out[k] == sorted[k].region.code
  {
    out := [];
    for i := 0 to |sorted|
      invariant |out| == Min(i, size) && forall k :: 0 <= k < |out| ==> out[k] == sorted[k].region.code
    {
      if |out| >= size { break; }
      out := out + [sorted[i].region.code];
    }
  }

  /** As many regions as the limit allows (limit <= 0 means one), the best standing ones, best first. */
  method DefaultRegionCodes(regions: seq<Region>, table: seq<Node>, now: int, limit: int) returns (out: seq<string>)
    ensures |out| == Min(|regions|, if limit <= 0 then 1 else limit)
    ensures exists ranks, sorted :: Standings(ranks, regions, Schedulable(table), now) && AreBest(out, ranks, sorted)
    ensures |out| > 0 ==>
      exists best: Standing :: best.region.code == out[0] && IsBestStanding(best, regions, Schedulable(table), now)
  {
    hide Describes, StandsBefore, IsBestStanding;
    var nodes := Filter(table, (n: Node) => n.schedulable);
    var ranks := RankRegions(regions, nodes, now);
    if |ranks| == 0 {
      assert AreBest([], ranks, []);
      return [];
    }
    StandingIsStrict();
    var best, sorted := FirstInOrder(ranks, StandsBefore);
    BestOfRanks(regions, ranks, nodes, now, best);
    out := TakeCodes(sorted, if limit <= 0 then 1 else limit);
    assert AreBest(out, ranks, sorted);
  }

  function Min(a: int, b: int): int { if a < b then a else b }

  lemma StandingIsStrict()
    ensures StrictWeakOrder(StandsBefore)
  {
    forall x, y, z
      ensures StandsBefore(x, z) ==> StandsBefore(x, y) || StandsBefore(y, z)
      ensures StandsBefore(x, y) && StandsBefore(y, z) ==> StandsBefore(x, z)
    {
    }
  }

  predicate HasNode(r: Region, nodes: seq<Node>) { exists n :: n in nodes && n.region == r.code }

  predicate HasAlive(r: Region, nodes: seq<Node>, now: int) { exists n :: n in nodes && n.region == r.code && Alive(n, now) }

  predicate HasAliveRemote(r: Region, nodes: seq<Node>, now: int) {
    exists n :: n in nodes && n.region == r.code && Alive(n, now) && n.transport != "local"
  }

  /** What preferring region a to b takes: a remote node online, else any node online, else any node; among equals
      a region that is not the global one, then the display order, then the id. */
  predicate AtLeast(a: Region, b: Region, nodes: seq<Node>, now: int) {
    if HasAliveRemote(a, nodes, now) != HasAliveRemote(b, nodes, now) then HasAliveRemote(a, nodes, now)
    else if HasAlive(a, nodes, now) != HasAlive(b, nodes, now) then HasAlive(a, nodes, now)
    else if HasNode(a, nodes) != HasNode(b, nodes) then HasNode(a, nodes)
    else if a.code == "global" && b.code != "global" then false
    else if a.code != "global" && b.code == "global" then true
    else a.displayOrder < b.displayOrder || (a.displayOrder == b.displayOrder && a.id <= b.id)
  }

  lemma DescribesMeans(s: Standing, nodes: seq<Node>, now: int)
    requires Describes(s, nodes, now)
    ensures s.hasNodes == HasNode(s.region, nodes) && s.online == HasAlive(s.region, nodes, now)
    ensures s.onlineRemote == HasAliveRemote(s.region, nodes, now)
  {
    assert forall n: Node :: Online(n, now) == Alive(n, now);
  }

  lemma StandingMeans(a: Standing, b: Standing, nodes: seq<Node>, now: int)
    requires Describes(a, nodes, now) && Describes(b, nodes, now)
    ensures !StandsBefore(b, a) <==> AtLeast(a.region, b.region, nodes, now)
  {
    DescribesMeans(a, nodes, now);
    DescribesMeans(b, nodes, now);
    hide Describes, HasNode, HasAlive, HasAliveRemote;
  }

  /** The codes of a ranking, read off the regions and nodes: each is the code of a region that is at least as good
      as those behind it in the list and as every region that is not in the list. */
  lemma BestCodesMean(out: seq<string>, regions: seq<Region>, nodes: seq<Node>, now: int, ranks: seq<Standing>, sorted: seq<Standing>)
    requires Standings(ranks, regions, nodes, now) && AreBest(out, ranks, sorted)
    ensures forall k :: 0 <= k < |out| ==> sorted[k].region in regions && out[k] == sorted[k].region.code
    ensures forall k, m :: 0 <= k < |out| && k < m < |sorted| ==> AtLeast(sorted[k].region, sorted[m].region, nodes, now)
    ensures forall r :: r in regions ==> exists m :: 0 <= m < |sorted| && sorted[m].region == r
  {
    hide Describes, StandsBefore, AtLeast;
    forall m | 0 <= m < |sorted| ensures sorted[m].region in regions && Describes(sorted[m], nodes, now) {
      assert sorted[m] in multiset(ranks);
      var i :| 0 <= i < |ranks| && ranks[i] == sorted[m];
    }
    forall k, m | 0 <= k < |out| && k < m < |sorted| ensures AtLeast(sorted[k].region, sorted[m].region, nodes, now) {
      StandingMeans(sorted[k], sorted[m], nodes, now);
    }
    forall r | r in regions ensures exists m :: 0 <= m < |sorted| && sorted[m].region == r {
      var i :| 0 <= i < |regions| && regions[i] == r;
      assert ranks[i] in multiset(sorted);
      var m :| 0 <= m < |sorted| && sorted[m] == ranks[i];
    }
  }

  /** A standing is determined by its region, so the best of the computed ones is the best of all. */
  lemma BestOfRanks(regions: seq<Region>, ranks: seq<Standing>, nodes: seq<Node>, now: int, best: Standing)
    requires |ranks| == |regions|
    requires forall k :: 0 <= k < |ranks| ==> ranks[k].region == regions[k] && Describes(ranks[k], nodes, now)
    requires best in ranks && forall m :: m in ranks ==> !StandsBefore(m, best)
    ensures IsBestStanding(best, regions, nodes, now)
  {
    forall s: Standing | s.region in regions && Describes(s, nodes, now) ensures !StandsBefore(s, best) {
      var k :| 0 <= k < |regions| && regions[k] == s.region;
      assert s == ranks[k];
    }
  }

  /** normalizeRegionCodes over the active regions. */
  method NormalizeRegionCodes(regions: seq<Region>, codes: seq<string>, limit: int, table: seq<Node>, now: int)
    returns (out: seq<string>)
    ensures var kept := KeepActive(codes, set r | r in regions :: r.code);
      && (kept != [] ==> out == if 0 < limit < |kept| then kept[..limit] else kept)
      && (kept == [] ==> |out| == Min(|regions|, if limit <= 0 then 1 else limit))
      && (kept == [] ==>
            exists ranks, sorted :: Standings(ranks, regions, Schedulable(table), now) && AreBest(out, ranks, sorted))
    ensures limit <= 0 ==> |out| <= Max(1, |codes|)
    ensures regions != [] ==> out != []
  {
    var active := set r | r in regions :: r.code;
    var normalized, seen := [], {};
    for i := 0 to |codes|
      invariant normalized == KeepActive(codes[..i], active)
      invariant forall c :: c in seen <==> c in normalized
    {
      assert codes[..i + 1][..i] == codes[..i];
      if codes[i] in active && codes[i] !in seen {
        seen := seen + {codes[i]};
        normalized := normalized + [codes[i]];
      }
    }
    assert codes[..|codes|] == codes;
    if |normalized| > 0 {
      if limit > 0 && |normalized| > limit {
        normalized := normalized[..limit];
      }
      return normalized;
    }
    out := DefaultRegionCodes(regions, table, now, limit);  // never longer than limit: no second cut
  }

  function Max(a: int, b: int): int { if a > b then a else b }
}
