/**
 * modul2.py's `main`: the device loop that names and types every address, and the link
 * loop that gives each device between 1 and min(3, N - 1) links to randomly sampled
 * other devices. The random module is replaced by the draws it would make.
 */
module FanOutTopology {
  import opened Wrappers
  import opened Devices
  import opened NetworkGraph
  import Snmp
  import Classifier

  /** The records modul2.py stores, in input order: the type classified from sysDescr, and the address. */
  function TypedRecords(ips: seq<string>, descrReplies: seq<Snmp.Reply>): (infos: seq<DeviceInfo>)
    requires |descrReplies| == |ips|
    ensures |infos| == |ips|
  {
    seq(|ips|, i requires 0 <= i < |ips| =>
      DeviceInfo(Classifier.DetectDeviceType(Snmp.GetSnmpData(descrReplies[i])), ips[i]))
  }

  /**
   * The device loop: one sysName and one sysDescr reply per address, in input order. A
   * name that repeats keeps its first place in the dict and the record of its last
   * device; every stored type is one of the four labels.
   */
  method DiscoverDevices(ips: seq<string>, nameReplies: seq<Snmp.Reply>, descrReplies: seq<Snmp.Reply>)
    returns (devices: DeviceMap)
    requires |nameReplies| == |ips| && |descrReplies| == |ips|
    ensures devices == Build(DisplayNames(ips, nameReplies), TypedRecords(ips, descrReplies))
    ensures Valid(devices)
    ensures forall k :: k in devices.info ==> devices.info[k].deviceType in Classifier.LABELS
  {
    ghost var names := DisplayNames(ips, nameReplies);
    ghost var infos := TypedRecords(ips, descrReplies);
    devices := EMPTY;
    var idx := 0;
    while idx < |ips|
      invariant 0 <= idx <= |ips|
      invariant devices == Build(names[..idx], infos[..idx])
    {
      var sysName := Snmp.GetSnmpData(nameReplies[idx]);
      var sysDescr := Snmp.GetSnmpData(descrReplies[idx]);
      var deviceType := Classifier.DetectDeviceType(sysDescr);
      var deviceName := DeviceName(sysName, ips[idx], idx);
      assert names[..idx + 1][..idx] == names[..idx] && infos[..idx + 1][..idx] == infos[..idx];
      devices := Put(devices, deviceName, DeviceInfo(deviceType, ips[idx]));
      idx := idx + 1;
    }
    assert names[..idx] == names && infos[..idx] == infos;
    BuildValid(names, infos);
    BuildValuesFromInputs(names, infos);
  }

  /**
   * What the random module yields for one device: `randint`'s link count, and the
   * positions in the population that `sample` picks, in the order it returns them.
   */
  datatype Draw = Draw(linkCount: int, picks: seq<nat>)

  /** `min(3, len(device_names) - 1)`. */
  function MaxLinks(n: nat): int
  {
    if n - 1 < 3 then n - 1 else 3
  }

  /** `[d for d in device_names if d != device]`: the other devices, in dict order. */
  function Population(names: seq<string>, device: string): (pop: seq<string>)
    ensures forall x :: x in pop <==> x in names && x != device
    decreases |names|
  {
    if names == [] then []
    else
      var n := |names| - 1;
      assert names == names[..n] + [names[n]];
      Population(names[..n], device) + (if names[n] != device then [names[n]] else [])
  }

  /** Filtering one more element appends it when it is not the device. */
  lemma PopulationNext(names: seq<string>, x: string, device: string)
    ensures Population(names + [x], device) == Population(names, device) + (if x != device then [x] else [])
  {
    assert (names + [x])[..|names|] == names;
  }

  /** Filtering a list without repeats gives a list without repeats. */
  lemma {:induction false} PopulationDistinct(names: seq<string>, device: string)
    requires Distinct(names)
    ensures Distinct(Population(names, device))
    decreases |names|
  {
    if names != [] {
      var n := |names| - 1;
      assert Distinct(names[..n]);
      PopulationDistinct(names[..n], device);
      assert names[n] !in names[..n];
    }
  }

  /** `random.sample(pop, k)` returning the elements at positions `picks`. */
  function Sample(pop: seq<string>, picks: seq<nat>): (s: seq<string>)
    requires forall j :: 0 <= j < |picks| ==> picks[j] < |pop|
    ensures |s| == |picks|
    ensures forall j :: 0 <= j < |s| ==> s[j] in pop
  {
    seq(|picks|, j requires 0 <= j < |picks| => pop[picks[j]])
  }

  /**
   * A draw the random module can make for device `i`: a count in [1, min(3, N - 1)]
   * and that many distinct positions in the population of device `i`.
   */
  predicate ValidDraw(names: seq<string>, i: nat, d: Draw)
    requires i < |names|
  {
    && 1 <= d.linkCount <= MaxLinks(|names|)
    && |d.picks| == d.linkCount
    && Distinct(d.picks)
    && forall j :: 0 <= j < |d.picks| ==> d.picks[j] < |Population(names, names[i])|
  }

  /** One valid draw per device. */
  predicate ValidDraws(names: seq<string>, draws: seq<Draw>)
  {
    |draws| == |names| && forall i :: 0 <= i < |names| ==> ValidDraw(names, i, draws[i])
  }

  /** The `targets` list of every device: the sample of its population. */
  function Targets(names: seq<string>, draws: seq<Draw>): (targets: seq<seq<string>>)
    requires ValidDraws(names, draws)
    ensures |targets| == |names|
  {
    seq(|names|, i requires 0 <= i < |names| => Sample(Population(names, names[i]), draws[i].picks))
  }

  /**
   * What the population filter guarantees: device `i` gets `randint`'s count of targets,
   * every target is another device, and (dict keys being distinct) no target twice.
   */
  lemma DrawnTargets(names: seq<string>, draws: seq<Draw>, i: nat)
    requires ValidDraws(names, draws) && i < |names|
    ensures |Targets(names, draws)[i]| == draws[i].linkCount
    ensures forall t :: t in Targets(names, draws)[i] ==> t in names && t != names[i]
    ensures Distinct(names) ==> Distinct(Targets(names, draws)[i])
  {
    var pop := Population(names, names[i]);
    var ts := Targets(names, draws)[i];
    assert ValidDraw(names, i, draws[i]);
    assert ts == Sample(pop, draws[i].picks);
    if Distinct(names) {
      PopulationDistinct(names, names[i]);
      forall j, k | 0 <= j < k < |ts|
        ensures ts[j] != ts[k]
      {
        var pj, pk := draws[i].picks[j], draws[i].picks[k];
        assert pj != pk;
        if pj < pk { assert pop[pj] != pop[pk]; } else { assert pop[pk] != pop[pj]; }
      }
    }
  }

  /** The ValueError `random.randint(1, 0)` raises when there is a single device. */
  datatype FanOutError = EmptyRange

  /** A Python tuple in the link loop: the 2-tuple the guard looks for, the 3-tuple it appends. */
  datatype PyTuple = Pair(first: string, second: string) | Triple(link: Link)

  /** The `links` list seen as the Python tuples it holds. */
  function AsTuples(links: seq<Link>): seq<PyTuple>
  {
    seq(|links|, i requires 0 <= i < |links| => Triple(links[i]))
  }

  /** The guard `(device, target) not in links and (target, device) not in links`. */
  predicate GuardPasses(device: string, target: string, links: seq<Link>)
  {
    Pair(device, target) !in AsTuples(links) && Pair(target, device) !in AsTuples(links)
  }

  /** A 2-tuple never equals a 3-tuple, so the guard lets every link through. */
  lemma GuardNeverRejects(device: string, target: string, links: seq<Link>)
    ensures GuardPasses(device, target, links)
  {
  }

  /** The links one device's block appends: one per drawn target, in draw order. */
  function DeviceLinks(device: string, targets: seq<string>): (links: seq<Link>)
    ensures |links| == |targets|
  {
    seq(|targets|, j requires 0 <= j < |targets| => Link(device, targets[j], ETHERNET_1G))
  }

  /** The links of the whole loop, device by device in dict order, device `i` drawing `targets[i]`. */
  function FanOutLinks(names: seq<string>, targets: seq<seq<string>>): (links: seq<Link>)
    requires |targets| == |names|
    ensures forall p :: 0 <= p < |links| ==> links[p].attrs == ETHERNET_1G
    decreases |names|
  {
    if names == [] then []
    else FanOutLinks(names[..|names| - 1], targets[..|targets| - 1]) + DeviceLinks(names[|names| - 1], targets[|targets| - 1])
  }

  /**
   * The link loop over the dict's keys `names`, draw `i` standing for the random calls
   * made for device `i`. A single device makes `randint` raise; otherwise every sampled
   * target gives a link, the guard never holding one back.
   */
  method RandomFanOut(names: seq<string>, draws: seq<Draw>) returns (r: Result<seq<Link>, FanOutError>)
    requires |names| >= 2 ==> ValidDraws(names, draws)
    ensures |names| == 0 ==> r == Ok([])
    ensures |names| == 1 ==> r == Err(EmptyRange)
    ensures |names| >= 2 ==> r == Ok(FanOutLinks(names, Targets(names, draws)))
  {
    if |names| == 1 {
      // `random.randint(1, 0)` in the first iteration
      return Err(EmptyRange);
    }
    if |names| == 0 {
      return Ok([]);
    }
    ghost var all := Targets(names, draws);
    var links: seq<Link> := [];
    var idx := 0;
    while idx < |names|
      invariant 0 <= idx <= |names|
      invariant links == FanOutLinks(names[..idx], all[..idx])
    {
      var device := names[idx];
      var maxLinks := MaxLinks(|names|);
      var targets := SampleFor(names, draws, idx, maxLinks);
      links := AppendDeviceLinks(device, targets, links);
      FanOutLinksNext(names, all, idx);
      idx := idx + 1;
    }
    assert names[..idx] == names && all[..idx] == all;
    r := Ok(links);
  }

  /**
   * The inner loop over one device's targets: each passes the guard and is appended
   * as an ethernet/1Gbps link, in sample order.
   */
  method AppendDeviceLinks(device: string, targets: seq<string>, links0: seq<Link>) returns (links: seq<Link>)
    ensures links == links0 + DeviceLinks(device, targets)
  {
    links := links0;
    var j := 0;
    while j < |targets|
      invariant 0 <= j <= |targets|
      invariant links == links0 + DeviceLinks(device, targets[..j])
    {
      var target := targets[j];
      GuardNeverRejects(device, target, links);
      if GuardPasses(device, target, links) {
        links := links + [Link(device, target, ETHERNET_1G)];
      }
      assert DeviceLinks(device, targets[..j + 1]) == DeviceLinks(device, targets[..j]) + [Link(device, target, ETHERNET_1G)];
      j := j + 1;
    }
    assert targets[..j] == targets;
  }

  /**
   * One iteration's random calls: `randint(1, max_links)` gives the count and
   * `random.sample` over the population gives the targets of device `i`.
   */
  method SampleFor(names: seq<string>, draws: seq<Draw>, i: nat, maxLinks: int) returns (targets: seq<string>)
    requires ValidDraws(names, draws) && i < |names| && maxLinks == MaxLinks(|names|)
    ensures targets == Targets(names, draws)[i]
    ensures 1 <= |targets| <= maxLinks
  {
    assert ValidDraw(names, i, draws[i]);
    var linkCount := draws[i].linkCount;
    var population := Population(names, names[i]);
    targets := Sample(population, draws[i].picks);
    assert |targets| == linkCount;
  }

  /** One more device of the loop appends that device's block. */
  lemma FanOutLinksNext(names: seq<string>, targets: seq<seq<string>>, k: nat)
    requires |targets| == |names| && k < |names|
    ensures FanOutLinks(names[..k + 1], targets[..k + 1]) == FanOutLinks(names[..k], targets[..k]) + DeviceLinks(names[k], targets[k])
  {
    assert names[..k + 1][..k] == names[..k] && targets[..k + 1][..k] == targets[..k];
  }

  /** Every link of the loop joins a device to one of its targets, and every such pair is a link. */
  lemma {:induction false} FanOutMembers(names: seq<string>, targets: seq<seq<string>>)
    requires |targets| == |names|
    ensures forall l :: l in FanOutLinks(names, targets) <==>
      exists i, j :: 0 <= i < |names| && 0 <= j < |targets[i]| && l == Link(names[i], targets[i][j], ETHERNET_1G)
    decreases |names|
  {
    if names != [] {
      var n := |names| - 1;
      var prev := FanOutLinks(names[..n], targets[..n]);
      var block := DeviceLinks(names[n], targets[n]);
      FanOutMembers(names[..n], targets[..n]);
      forall l | l in FanOutLinks(names, targets)
        ensures exists i, j ::
          0 <= i < |names| && 0 <= j < |targets[i]| && l == Link(names[i], targets[i][j], ETHERNET_1G)
      {
        if l in prev {
          var i, j :| 0 <= i < n && 0 <= j < |targets[..n][i]| &&
            l == Link(names[..n][i], targets[..n][i][j], ETHERNET_1G);
          assert names[..n][i] == names[i] && targets[..n][i] == targets[i];
        } else {
          assert l in block;
          var j :| 0 <= j < |block| && block[j] == l;
          assert l == Link(names[n], targets[n][j], ETHERNET_1G);
        }
      }
      forall i, j | 0 <= i < |names| && 0 <= j < |targets[i]|
        ensures Link(names[i], targets[i][j], ETHERNET_1G) in FanOutLinks(names, targets)
      {
        if i < n {
          assert names[..n][i] == names[i] && targets[..n][i] == targets[i];
          assert Link(names[i], targets[i][j], ETHERNET_1G) in prev;
        } else {
          assert block[j] == Link(names[i], targets[i][j], ETHERNET_1G);
        }
      }
    }
  }

  /**
   * Every link joins two distinct devices of the dict and carries the ethernet/1Gbps
   * attributes: the population excludes the device itself, so the loop never makes a
   * self-loop.
   */
  lemma FanOutNoSelfLoops(names: seq<string>, draws: seq<Draw>)
    requires ValidDraws(names, draws)
    ensures forall p :: 0 <= p < |FanOutLinks(names, Targets(names, draws))| ==>
      var l := FanOutLinks(names, Targets(names, draws))[p];
      l.source != l.target && l.source in names && l.target in names && l.attrs == ETHERNET_1G
  {
    var targets := Targets(names, draws);
    var links := FanOutLinks(names, targets);
    FanOutMembers(names, targets);
    forall p | 0 <= p < |links|
      ensures links[p].source != links[p].target && links[p].source in names &&
        links[p].target in names && links[p].attrs == ETHERNET_1G
    {
      assert links[p] in links;
      var i, j :| 0 <= i < |names| && 0 <= j < |targets[i]| &&
        links[p] == Link(names[i], targets[i][j], ETHERNET_1G);
      DrawnTargets(names, draws, i);
      assert targets[i][j] in targets[i];
    }
  }

  /** The sum of the drawn link counts. */
  function SumCounts(draws: seq<Draw>): int
    decreases |draws|
  {
    if draws == [] then 0 else SumCounts(draws[..|draws| - 1]) + draws[|draws| - 1].linkCount
  }

  /**
   * The guard rejects nothing, so the loop appends exactly the sum of the link counts,
   * between N and 3N links for N devices.
   */
  lemma {:induction false} FanOutCount(names: seq<string>, targets: seq<seq<string>>, draws: seq<Draw>)
    requires |targets| == |names| && |draws| == |names|
    requires forall i :: 0 <= i < |draws| ==> |targets[i]| == draws[i].linkCount
    requires forall i :: 0 <= i < |draws| ==> 1 <= draws[i].linkCount <= 3
    ensures |FanOutLinks(names, targets)| == SumCounts(draws)
    ensures |names| <= SumCounts(draws) <= 3 * |names|
    decreases |names|
  {
    if names != [] {
      var n := |names| - 1;
      assert forall i :: 0 <= i < n ==> draws[..n][i] == draws[i] && targets[..n][i] == targets[i];
      FanOutCount(names[..n], targets[..n], draws[..n]);
    }
  }

  /** With valid draws, N devices give the sum of their link counts, between N and 3N links. */
  lemma FanOutCountValid(names: seq<string>, draws: seq<Draw>)
    requires ValidDraws(names, draws)
    ensures |FanOutLinks(names, Targets(names, draws))| == SumCounts(draws)
    ensures |names| <= SumCounts(draws) <= 3 * |names|
  {
    var targets := Targets(names, draws);
    forall i | 0 <= i < |draws|
      ensures |targets[i]| == draws[i].linkCount && 1 <= draws[i].linkCount <= 3
    {
      DrawnTargets(names, draws, i);
    }
    FanOutCount(names, targets, draws);
  }

  /** No two links share both their source and their target. */
  predicate OneLinkPerTarget(links: seq<Link>)
  {
    forall p, q :: 0 <= p < q < |links| && links[p].source == links[q].source ==> links[p].target != links[q].target
  }

  /**
   * Distinct devices with repeat-free target lists never give the same directed link
   * twice: links from different devices differ in their source, and links from one
   * device in their target.
   */
  lemma {:induction false} FanOutTargetsDistinct(names: seq<string>, targets: seq<seq<string>>)
    requires |targets| == |names|
    requires Distinct(names)
    requires forall i :: 0 <= i < |targets| ==> Distinct(targets[i])
    ensures OneLinkPerTarget(FanOutLinks(names, targets))
    decreases |names|
  {
    if names != [] {
      var n := |names| - 1;
      var prev := FanOutLinks(names[..n], targets[..n]);
      var block := DeviceLinks(names[n], targets[n]);
      var links := FanOutLinks(names, targets);
      assert Distinct(names[..n]);
      assert forall i :: 0 <= i < n ==> targets[..n][i] == targets[i];
      FanOutTargetsDistinct(names[..n], targets[..n]);
      FanOutMembers(names[..n], targets[..n]);
      forall p, q | 0 <= p < q < |links|
        ensures links[p].source == links[q].source ==> links[p].target != links[q].target
      {
        if q < |prev| {
          assert links[p] == prev[p] && links[q] == prev[q];
        } else if p >= |prev| {
          assert links[p] == block[p - |prev|] && links[q] == block[q - |prev|];
        } else {
          assert links[p] == prev[p] && links[q] == block[q - |prev|];
          assert prev[p] in prev;
          var i, j :| 0 <= i < n && 0 <= j < |targets[..n][i]| &&
            prev[p] == Link(names[..n][i], targets[..n][i][j], ETHERNET_1G);
          assert names[..n][i] == names[i];
          assert links[p].source != links[q].source;
        }
      }
    }
  }

  /**
   * The fan-out over the dict's keys never appends the same directed link twice, since
   * `sample` draws without replacement from a population without repeats.
   */
  lemma FanOutNoRepeatedLink(devices: DeviceMap, draws: seq<Draw>)
    requires Valid(devices)
    requires ValidDraws(devices.keys, draws)
    ensures OneLinkPerTarget(FanOutLinks(devices.keys, Targets(devices.keys, draws)))
  {
    var targets := Targets(devices.keys, draws);
    forall i | 0 <= i < |targets|
      ensures Distinct(targets[i])
    {
      DrawnTargets(devices.keys, draws, i);
    }
    FanOutTargetsDistinct(devices.keys, targets);
  }

  /**
   * Two devices that draw each other (as-written behaviour): both directions are kept,
   * two list entries for one undirected pair.
   */
  lemma BothDirectionsKept(a: string, b: string)
    requires a != b
    ensures ValidDraws([a, b], [Draw(1, [0]), Draw(1, [0])])
    ensures FanOutLinks([a, b], Targets([a, b], [Draw(1, [0]), Draw(1, [0])]))
      == [Link(a, b, ETHERNET_1G), Link(b, a, ETHERNET_1G)]
    ensures EdgeOf(Link(a, b, ETHERNET_1G)) == EdgeOf(Link(b, a, ETHERNET_1G))
  {
    PairTargets(a, b);
    var names, targets := [a, b], [[b], [a]];
    FanOutLinksNext(names, targets, 0);
    FanOutLinksNext(names, targets, 1);
    assert names[..0] == [] && targets[..0] == [];
    assert names[..2] == names && targets[..2] == targets;
  }

  /** Between two devices, each one's population is the other device. */
  lemma PairPopulations(a: string, b: string)
    requires a != b
    ensures Population([a, b], a) == [b] && Population([a, b], b) == [a]
  {
    PopulationNext([], a, a);
    PopulationNext([], a, b);
    PopulationNext([a], b, a);
    PopulationNext([a], b, b);
    assert [] + [a] == [a] && [a] + [b] == [a, b];
  }

  /** Two devices each sampling position 0: each draws the other. */
  lemma PairTargets(a: string, b: string)
    requires a != b
    ensures ValidDraws([a, b], [Draw(1, [0]), Draw(1, [0])])
    ensures Targets([a, b], [Draw(1, [0]), Draw(1, [0])]) == [[b], [a]]
  {
    var names, draws := [a, b], [Draw(1, [0]), Draw(1, [0])];
    PairPopulations(a, b);
    assert ValidDraw(names, 0, draws[0]) && ValidDraw(names, 1, draws[1]);
    var targets := Targets(names, draws);
    assert targets[0] == Sample([b], [0]) && targets[1] == Sample([a], [0]);
    assert targets[0] == [b] && targets[1] == [a];
  }

  /**
   * The evidently intended guard: a link is kept only when no link kept before it joins
   * the same two devices, in either direction.
   */
  function Dedup(links: seq<Link>): seq<Link>
    decreases |links|
  {
    if links == [] then []
    else
      var kept := Dedup(links[..|links| - 1]);
      var l := links[|links| - 1];
      if EdgeOf(l) in EdgeSet(kept) then kept else kept + [l]
  }

  /**
   * The intended guard keeps one link per undirected pair: no two kept links join the
   * same devices, every kept link is one of the input, and every pair is still joined.
   */
  lemma {:induction false} DedupSpec(links: seq<Link>)
    ensures EdgeSet(Dedup(links)) == EdgeSet(links)
    ensures forall p, q :: 0 <= p < q < |Dedup(links)| ==> EdgeOf(Dedup(links)[p]) != EdgeOf(Dedup(links)[q])
    ensures forall l :: l in Dedup(links) ==> l in links
    decreases |links|
  {
    if links != [] {
      var n := |links| - 1;
      var kept := Dedup(links[..n]);
      DedupSpec(links[..n]);
      assert EdgeSet(links) == EdgeSet(links[..n]) + {EdgeOf(links[n])} by {
        assert forall i :: 0 <= i < n ==> links[..n][i] == links[i];
      }
      if EdgeOf(links[n]) !in EdgeSet(kept) {
        var r := kept + [links[n]];
        assert EdgeSet(r) == EdgeSet(kept) + {EdgeOf(links[n])} by {
          assert forall i :: 0 <= i < |kept| ==> r[i] == kept[i];
          assert r[|kept|] == links[n];
        }
        forall p, q | 0 <= p < q < |r|
          ensures EdgeOf(r[p]) != EdgeOf(r[q])
        {
          if q == |kept| {
            assert r[p] == kept[p];
          }
        }
      }
    }
  }

  /**
   * Keeping both directions only costs list entries: the as-written links and the
   * intended ones build the same graph edges.
   */
  lemma DedupSameGraph(names: seq<string>, draws: seq<Draw>)
    requires ValidDraws(names, draws)
    ensures EdgesOf(Dedup(FanOutLinks(names, Targets(names, draws)))) == EdgesOf(FanOutLinks(names, Targets(names, draws)))
  {
    var links := FanOutLinks(names, Targets(names, draws));
    FanOutNoSelfLoops(names, draws);
    DedupSpec(links);
    forall i | 0 <= i < |Dedup(links)|
      ensures Dedup(links)[i].attrs == ETHERNET_1G
    {
      assert Dedup(links)[i] in links;
    }
    SameEdges(Dedup(links), links, ETHERNET_1G);
  }

  /** Every endpoint of a fan-out link is a device of the dict. */
  lemma FanOutEndpoints(devices: DeviceMap, draws: seq<Draw>)
    requires Valid(devices)
    requires ValidDraws(devices.keys, draws)
    ensures Endpoints(FanOutLinks(devices.keys, Targets(devices.keys, draws))) <= devices.info.Keys
  {
    var links := FanOutLinks(devices.keys, Targets(devices.keys, draws));
    FanOutNoSelfLoops(devices.keys, draws);
    forall k | k in Endpoints(links)
      ensures k in devices.info
    {
      var i :| 0 <= i < |links| && (links[i].source == k || links[i].target == k);
    }
  }

  /**
   * The graph of the fan-out has exactly the dict's devices as nodes, each with its
   * record (so each node has its "type"); no link adds a node without one.
   */
  lemma FanOutGraphNodes(devices: DeviceMap, draws: seq<Draw>)
    requires Valid(devices)
    requires ValidDraws(devices.keys, draws)
    ensures NodesOf(devices, FanOutLinks(devices.keys, Targets(devices.keys, draws))) == DeviceNodes(devices)
  {
    var links := FanOutLinks(devices.keys, Targets(devices.keys, draws));
    FanOutEndpoints(devices, draws);
    NodesOfSpec(devices, links);
    assert NodesOf(devices, links).Keys == DeviceNodes(devices).Keys;
  }

  /** Every edge of the fan-out graph joins two distinct devices. */
  lemma FanOutGraphEdges(names: seq<string>, draws: seq<Draw>)
    requires ValidDraws(names, draws)
    ensures forall e :: e in EdgesOf(FanOutLinks(names, Targets(names, draws))) ==> |e| == 2
  {
    FanOutNoSelfLoops(names, draws);
    NoSelfLoops(FanOutLinks(names, Targets(names, draws)));
  }

  /**
   * One reachable Cisco switch: the device loop stores the switch under its sysName and
   * address (the link loop then raises, `randint(1, 0)` having an empty range).
   */
  lemma SingleSwitch()
    ensures
      var ips := ["10.0.0.1"];
      var nameReplies := [Snmp.Answer(Snmp.SYS_NAME_OID, "core-sw")];
      var descrReplies := [Snmp.Answer(Snmp.SYS_DESCR_OID, "Cisco IOS Switch")];
      Build(DisplayNames(ips, nameReplies), TypedRecords(ips, descrReplies))
      == DeviceMap(["core-sw (10.0.0.1)"], map["core-sw (10.0.0.1)" := DeviceInfo("switch", "10.0.0.1")])
  {
    SwitchName();
    SwitchRecord();
    SingleEntry("core-sw (10.0.0.1)", DeviceInfo("switch", "10.0.0.1"));
  }

  /** One assignment into the empty dict. */
  lemma SingleEntry(name: string, info: DeviceInfo)
    ensures Build([name], [info]) == DeviceMap([name], map[name := info])
  {
    assert [name][..0] == [] && [info][..0] == [];
  }

  /** The display name of a device that answers sysName with "core-sw". */
  lemma SwitchName()
    ensures DisplayNames(["10.0.0.1"], [Snmp.Answer(Snmp.SYS_NAME_OID, "core-sw")]) == ["core-sw (10.0.0.1)"]
  {
    var names := DisplayNames(["10.0.0.1"], [Snmp.Answer(Snmp.SYS_NAME_OID, "core-sw")]);
    Snmp.AnswerRoundTrip(Snmp.SYS_NAME_OID, "core-sw", []);
    assert names[0] == "core-sw" + " (" + "10.0.0.1" + ")";
    assert "core-sw" + " (" + "10.0.0.1" + ")" == "core-sw (10.0.0.1)";
  }

  /** The record of a device that answers sysDescr with "Cisco IOS Switch". */
  lemma SwitchRecord()
    ensures TypedRecords(["10.0.0.1"], [Snmp.Answer(Snmp.SYS_DESCR_OID, "Cisco IOS Switch")]) == [DeviceInfo("switch", "10.0.0.1")]
  {
    Snmp.AnswerRoundTrip(Snmp.SYS_DESCR_OID, "Cisco IOS Switch", []);
    Classifier.CiscoSwitchIsSwitch();
  }
}
