/** The work list of a batch run: regions x targets x protocols, region by region. */
module BatchWork {
  import opened Ranking

  datatype Item = Item(region: string, target: string, protocol: string)

  /** expandBatchProtocols. */
  function ExpandProtocols(protocol: string): (ps: seq<string>)
    ensures Distinct(ps) && |ps| == if protocol == "all" then 5 else 1
  {
    if protocol == "all" then
      var ps := ["http", "ping", "dns", "mtr", "traceroute"];
      assert ps[0] == "http" && ps[1] == "ping" && ps[2] == "dns" && ps[3] == "mtr" && ps[4] == "traceroute";
      assert ps[0][0] != ps[1][0] && ps[2][0] != ps[3][0] && ps[3][0] != ps[4][0];
      ps
    else [protocol]
  }

  const ALL_PROTOCOLS := {"http", "ping", "dns", "mtr", "traceroute"}

  lemma ExpandProtocolsRight(protocol: string)
    ensures forall p :: p in ExpandProtocols(protocol) <==> if protocol == "all" then p in ALL_PROTOCOLS else p == protocol
  {
    if protocol == "all" {
      var ps := ["http", "ping", "dns", "mtr", "traceroute"];
      assert ExpandProtocols(protocol) == ps;
      assert ps[0] in ps && ps[1] in ps && ps[2] in ps && ps[3] in ps && ps[4] in ps;
    }
  }

  function TargetItems(region: string, target: string, protocols: seq<string>): seq<Item> {
    seq(|protocols|, i requires 0 <= i < |protocols| => Item(region, target, protocols[i]))
  }

  function RegionItems(region: string, targets: seq<string>, protocols: seq<string>): seq<Item> {
    if targets == [] then []
    else RegionItems(region, targets[..|targets| - 1], protocols) + TargetItems(region, targets[|targets| - 1], protocols)
  }

  function WorkItems(regions: seq<string>, targets: seq<string>, protocols: seq<string>): seq<Item> {
    if regions == [] then []
    else WorkItems(regions[..|regions| - 1], targets, protocols) + RegionItems(regions[|regions| - 1], targets, protocols)
  }

  lemma TargetItemsRight(region: string, target: string, protocols: seq<string>)
    ensures forall x :: x in TargetItems(region, target, protocols)
                        <==> x.region == region && x.target == target && x.protocol in protocols
    ensures Distinct(protocols) ==> Distinct(TargetItems(region, target, protocols))
  {
    var items := TargetItems(region, target, protocols);
    forall x: Item | x.region == region && x.target == target && x.protocol in protocols ensures x in items {
      var i :| 0 <= i < |protocols| && protocols[i] == x.protocol;
      assert items[i] == x;
    }
  }

  lemma {:induction false} RegionItemsRight(region: string, targets: seq<string>, protocols: seq<string>)
    ensures |RegionItems(region, targets, protocols)| == |targets| * |protocols|
    ensures forall x :: x in RegionItems(region, targets, protocols)
                        <==> x.region == region && x.target in targets && x.protocol in protocols
    ensures Distinct(targets) && Distinct(protocols) ==> Distinct(RegionItems(region, targets, protocols))
    decreases |targets|
  {
    if targets != [] {
      var init, last := targets[..|targets| - 1], targets[|targets| - 1];
      RegionItemsRight(region, init, protocols);
      assert targets == init + [last];
      TargetItemsRight(region, last, protocols);
      DistinctConcat(RegionItems(region, init, protocols), TargetItems(region, last, protocols));
      OneMore(|init|, |protocols|, 1);
      hide TargetItems;
    }
  }

  lemma DistinctConcat<T>(a: seq<T>, b: seq<T>)
    ensures Distinct(a) && Distinct(b) && (forall x :: x in a ==> x !in b) ==> Distinct(a + b)
  {
    var s := a + b;
    if Distinct(a) && Distinct(b) && forall x :: x in a ==> x !in b {
      forall i, j | 0 <= i < j < |s| ensures s[i] != s[j] {
        assert i < |a| ==> s[i] == a[i];
        assert j >= |a| ==> s[j] in b;
      }
    }
  }

  lemma OneMore(n: nat, t: nat, p: nat)
    ensures (n + 1) * t * p == n * t * p + t * p
  {
    assert (n + 1) * t == n * t + t;
  }

  /** The work list holds every combination and nothing else: as many items as the product says, and each
      combination once when regions, targets and protocols do not repeat. */
  lemma {:induction false} WorkItemsRight(regions: seq<string>, targets: seq<string>, protocols: seq<string>)
    ensures |WorkItems(regions, targets, protocols)| == |regions| * |targets| * |protocols|
    ensures forall x :: x in WorkItems(regions, targets, protocols)
                        <==> x.region in regions && x.target in targets && x.protocol in protocols
    ensures Distinct(regions) && Distinct(targets) && Distinct(protocols) ==> Distinct(WorkItems(regions, targets, protocols))
    decreases |regions|
  {
    if regions != [] {
      var init, last := regions[..|regions| - 1], regions[|regions| - 1];
      WorkItemsRight(init, targets, protocols);
      RegionItemsRight(last, targets, protocols);
      assert regions == init + [last];
      DistinctConcat(WorkItems(init, targets, protocols), RegionItems(last, targets, protocols));
      OneMore(|init|, |targets|, |protocols|);
    }
  }

  lemma {:induction false} RegionItemAt(region: string, targets: seq<string>, protocols: seq<string>, t: nat, p: nat)
    requires t < |targets| && p < |protocols|
    ensures 0 <= t * |protocols| + p < |RegionItems(region, targets, protocols)| == |targets| * |protocols|
    ensures RegionItems(region, targets, protocols)[t * |protocols| + p] == Item(region, targets[t], protocols[p])
    decreases |targets|
  {
    var n := |targets| - 1;
    RegionItemsRight(region, targets, protocols);
    RegionItemsRight(region, targets[..n], protocols);
    OneMore(n, 1, |protocols|);
    if t < n {
      RegionItemAt(region, targets[..n], protocols, t, p);
    }
  }

  /** The order of the work list, of which a stopped run covers a prefix: region by region, in it target by target,
      and in that protocol by protocol. */
  lemma {:induction false} WorkItemAt(regions: seq<string>, targets: seq<string>, protocols: seq<string>, r: nat, t: nat, p: nat)
    requires r < |regions| && t < |targets| && p < |protocols|
    ensures 0 <= r * (|targets| * |protocols|) + (t * |protocols| + p) < |WorkItems(regions, targets, protocols)|
    ensures WorkItems(regions, targets, protocols)[r * (|targets| * |protocols|) + (t * |protocols| + p)]
         == Item(regions[r], targets[t], protocols[p])
    decreases |regions|
  {
    hide RegionItems;
    var n, size := |regions| - 1, |targets| * |protocols|;
    RegionItemAt(regions[r], targets, protocols, t, p);
    WorkItemsRight(regions[..n], targets, protocols);
    RegionItemsRight(regions[n], targets, protocols);
    Flat(n, |targets|, |protocols|);
    if r < n {
      WorkItemAt(regions[..n], targets, protocols, r, t, p);
    }
  }

  lemma Flat(n: nat, t: nat, p: nat)
    ensures n * t * p == n * (t * p)
  {
  }

  method BuildWorkItems(regions: seq<string>, targets: seq<string>, protocols: seq<string>) returns (items: seq<Item>)
    ensures items == WorkItems(regions, targets, protocols)
  {
    items := [];
    for r := 0 to |regions|
      invariant items == WorkItems(regions[..r], targets, protocols)
    {
      ghost var before := items;
      assert regions[..r + 1][..r] == regions[..r];
      for t := 0 to |targets|
        invariant items == before + RegionItems(regions[r], targets[..t], protocols)
      {
        ghost var sofar := items;
        assert targets[..t + 1][..t] == targets[..t];
        for p := 0 to |protocols|
          invariant items == sofar + TargetItems(regions[r], targets[t], protocols)[..p]
        {
          items := items + [Item(regions[r], targets[t], protocols[p])];
        }
      }
      assert targets[..|targets|] == targets;
    }
    assert regions[..|regions|] == regions;
  }
}
