/**
 * The discovery loop of modul1.py's `main`: each address is named from its sysName
 * reply, stored in the `devices` dict with type "unknown", and, from the second device
 * on, linked to the key at position `idx - 1` of the dict's current key list.
 */
module ChainTopology {
  import opened Wrappers
  import opened Devices
  import opened NetworkGraph
  import Snmp

  /** What the loop has built: the `devices` dict and the `links` list. */
  datatype ChainState = ChainState(devices: DeviceMap, links: seq<Link>)

  /** The IndexError that `list(devices.keys())[idx - 1]` raises in iteration `idx`. */
  datatype ChainError = IndexError(idx: nat)

  /** The records modul1.py stores, in input order: type "unknown" and the address. */
  function UntypedRecords(ips: seq<string>): (infos: seq<DeviceInfo>)
    ensures |infos| == |ips|
  {
    seq(|ips|, i requires 0 <= i < |ips| => UntypedRecord(ips[i]))
  }

  /**
   * The loop as written, after the devices named `names` (with records `infos`) have been
   * processed: each device is put in the dict and, from the second on, linked from
   * whatever key the dict lists at position `idx - 1`. Every link ends at the device of
   * its iteration and is an ethernet/1Gbps link, one per device after the first.
   */
  function ChainRun(names: seq<string>, infos: seq<DeviceInfo>): (r: Result<ChainState, ChainError>)
    requires |names| == |infos|
    ensures r.Ok? ==> r.value.devices == Build(names, infos)
    ensures r.Ok? ==> |r.value.links| == if names == [] then 0 else |names| - 1
    ensures r.Ok? ==> forall i :: 0 <= i < |r.value.links| ==>
      r.value.links[i].target == names[i + 1] && r.value.links[i].attrs == ETHERNET_1G
    decreases |names|
  {
    if names == [] then Ok(ChainState(EMPTY, []))
    else
      var n := |names| - 1;
      match ChainRun(names[..n], infos[..n])
      case Err(e) => Err(e)
      case Ok(st) => Step(st, names[n], infos[n], n)
  }

  /**
   * Iteration `idx` of the loop, on the state `st` the earlier iterations left:
   * `devices[name] = info`, then for idx > 0 a link from the dict's key at `idx - 1`.
   */
  function Step(st: ChainState, name: string, info: DeviceInfo, idx: nat): Result<ChainState, ChainError>
  {
    var devices := Put(st.devices, name, info);
    if idx == 0 then Ok(ChainState(devices, st.links))
    else if idx - 1 < |devices.keys| then
      Ok(ChainState(devices, st.links + [Link(devices.keys[idx - 1], name, ETHERNET_1G)]))
    else Err(IndexError(idx))
  }

  /**
   * What one iteration does: the loop raises exactly when the dict, after the
   * assignment, has fewer than `idx` keys; otherwise the dict is the assigned one and,
   * for idx > 0, one ethernet/1Gbps link into `name` from a key of the dict is appended.
   */
  lemma StepSpec(st: ChainState, name: string, info: DeviceInfo, idx: nat)
    ensures var r := Step(st, name, info, idx);
      r.Err? <==> 0 < idx && |Put(st.devices, name, info).keys| < idx
    ensures var r := Step(st, name, info, idx);
      r.Ok? ==> r.value.devices == Put(st.devices, name, info)
    ensures var r := Step(st, name, info, idx);
      r.Ok? && idx == 0 ==> r.value.links == st.links
    ensures var r := Step(st, name, info, idx);
      r.Ok? && 0 < idx ==>
        && |r.value.links| == |st.links| + 1
        && r.value.links[..|st.links|] == st.links
        && r.value.links[|st.links|].source in r.value.devices.keys
        && r.value.links[|st.links|].target == name
        && r.value.links[|st.links|].attrs == ETHERNET_1G
  {
  }

  /** Running one more iteration is one more `Step`. */
  lemma ChainRunNext(names: seq<string>, infos: seq<DeviceInfo>, k: nat, st: ChainState)
    requires |names| == |infos| && k < |names|
    requires ChainRun(names[..k], infos[..k]) == Ok(st)
    ensures ChainRun(names[..k + 1], infos[..k + 1]) == Step(st, names[k], infos[k], k)
  {
    assert names[..k + 1][..k] == names[..k] && infos[..k + 1][..k] == infos[..k];
  }

  /** Once an iteration raises, the loop ends with that error. */
  lemma {:induction false} ChainRunErrorStops(names: seq<string>, infos: seq<DeviceInfo>, k: nat)
    requires |names| == |infos| && k <= |names|
    requires ChainRun(names[..k], infos[..k]).Err?
    ensures ChainRun(names, infos) == ChainRun(names[..k], infos[..k])
    decreases |names|
  {
    if k < |names| {
      var n := |names| - 1;
      assert names[..n][..k] == names[..k] && infos[..n][..k] == infos[..k];
      ChainRunErrorStops(names[..n], infos[..n], k);
    } else {
      assert names[..k] == names && infos[..k] == infos;
    }
  }

  /**
   * The intended chain: the device at position i > 0 linked from the device at
   * position i - 1, every link ethernet/1Gbps.
   */
  function ChainLinks(names: seq<string>): (links: seq<Link>)
  {
    if |names| <= 1 then []
    else seq(|names| - 1, i requires 0 <= i < |names| - 1 => Link(names[i], names[i + 1], ETHERNET_1G))
  }

  /**
   * With pairwise distinct names the loop never raises: the dict lists every device in
   * input order and link i joins device i to device i + 1, N - 1 links for N devices.
   */
  lemma {:induction false} ChainRunDistinct(names: seq<string>, infos: seq<DeviceInfo>)
    requires |names| == |infos|
    requires Distinct(names)
    ensures ChainRun(names, infos) == Ok(ChainState(Build(names, infos), ChainLinks(names)))
    decreases |names|
  {
    if names != [] {
      var n := |names| - 1;
      assert Distinct(names[..n]);
      ChainRunDistinct(names[..n], infos[..n]);
      BuildDistinct(names, infos);
      if n > 0 {
        var links := ChainLinks(names[..n]) + [Link(names[n - 1], names[n], ETHERNET_1G)];
        assert links == ChainLinks(names) by {
          assert |links| == |ChainLinks(names)|;
          forall i | 0 <= i < |links| ensures links[i] == ChainLinks(names)[i] {
            if i < n - 1 {
              assert names[..n][i] == names[i] && names[..n][i + 1] == names[i + 1];
            }
          }
        }
      }
    }
  }

  /**
   * modul1.py's loop over the addresses, each sysName reply standing for one
   * `get_snmp_data` call; it returns what the loop leaves in `devices` and `links`, or
   * the IndexError that ends it.
   */
  method DiscoverChain(ips: seq<string>, nameReplies: seq<Snmp.Reply>) returns (r: Result<ChainState, ChainError>)
    requires |nameReplies| == |ips|
    ensures r == ChainRun(DisplayNames(ips, nameReplies), UntypedRecords(ips))
    ensures Distinct(DisplayNames(ips, nameReplies)) ==>
      r == Ok(ChainState(Build(DisplayNames(ips, nameReplies), UntypedRecords(ips)), ChainLinks(DisplayNames(ips, nameReplies))))
  {
    ghost var names := DisplayNames(ips, nameReplies);
    ghost var infos := UntypedRecords(ips);
    var devices := EMPTY;
    var links: seq<Link> := [];
    var idx := 0;
    while idx < |ips|
      invariant 0 <= idx <= |ips|
      invariant ChainRun(names[..idx], infos[..idx]) == Ok(ChainState(devices, links))
    {
      var sysName := Snmp.GetSnmpData(nameReplies[idx]);
      var deviceName := DeviceName(sysName, ips[idx], idx);
      assert names[idx] == deviceName && infos[idx] == UntypedRecord(ips[idx]);
      ChainRunNext(names, infos, idx, ChainState(devices, links));
      devices := Put(devices, deviceName, UntypedRecord(ips[idx]));
      if idx > 0 {
        if idx - 1 >= |devices.keys| {
          r := Err(IndexError(idx));
          ChainRunErrorStops(names, infos, idx + 1);
          assert names[..|ips|] == names && infos[..|ips|] == infos;
          if Distinct(names) {
            ChainRunDistinct(names, infos);
          }
          return;
        }
        var prevDevice := devices.keys[idx - 1];
        links := links + [Link(prevDevice, deviceName, ETHERNET_1G)];
      }
      idx := idx + 1;
    }
    assert names[..idx] == names && infos[..idx] == infos;
    r := Ok(ChainState(devices, links));
    if Distinct(names) {
      ChainRunDistinct(names, infos);
    }
  }

  /** With distinct names the graph has one node per device, carrying the device's record. */
  lemma ChainGraphNodes(names: seq<string>, infos: seq<DeviceInfo>)
    requires |names| == |infos|
    requires Distinct(names)
    ensures forall k :: k in NodesOf(Build(names, infos), ChainLinks(names)) <==> k in names
    ensures forall i :: 0 <= i < |names| ==> NodesOf(Build(names, infos), ChainLinks(names))[names[i]] == Attrs(infos[i])
  {
    var devices, links := Build(names, infos), ChainLinks(names);
    BuildValid(names, infos);
    NodesOfSpec(devices, links);
    assert forall k :: k in Endpoints(links) ==> k in names;
    forall i | 0 <= i < |names|
      ensures devices.info[names[i]] == infos[i]
    {
      BuildLastWins(names, infos, i);
    }
  }

  /**
   * The chain's edges form the path of the devices in input order: an edge between each
   * device and the next, no other edge, and no self-loop when names are distinct.
   */
  lemma ChainGraphEdges(names: seq<string>)
    requires Distinct(names)
    ensures forall i :: 0 <= i < |names| - 1 ==> {names[i], names[i + 1]} in EdgesOf(ChainLinks(names))
    ensures forall e :: e in EdgesOf(ChainLinks(names)) ==>
      |e| == 2 && exists i :: 0 <= i < |names| - 1 && e == EdgeOf(ChainLinks(names)[i])
  {
    var links := ChainLinks(names);
    EdgesOfKeys(links);
    NoSelfLoops(links);
    forall i | 0 <= i < |names| - 1
      ensures {names[i], names[i + 1]} in EdgesOf(links)
    {
      assert EdgeOf(links[i]) == {names[i], names[i + 1]};
    }
  }

  /**
   * Both sysName queries time out: two fallback names numbered by input position, both
   * "unknown", and one ethernet/1Gbps link between them.
   */
  lemma TwoUnreachableDevices()
    ensures var timeout := Snmp.Reply(Some("No SNMP response received before timeout"), 0, 0, []);
      ChainRun(DisplayNames(["10.0.0.1", "10.0.0.2"], [timeout, timeout]), UntypedRecords(["10.0.0.1", "10.0.0.2"]))
      == Ok(ChainState(
           DeviceMap(["Cihaz-1 (10.0.0.1)", "Cihaz-2 (10.0.0.2)"],
                     map["Cihaz-1 (10.0.0.1)" := DeviceInfo("unknown", "10.0.0.1"),
                         "Cihaz-2 (10.0.0.2)" := DeviceInfo("unknown", "10.0.0.2")]),
           [Link("Cihaz-1 (10.0.0.1)", "Cihaz-2 (10.0.0.2)", ETHERNET_1G)]))
  {
    var timeout := Snmp.Reply(Some("No SNMP response received before timeout"), 0, 0, []);
    var ips := ["10.0.0.1", "10.0.0.2"];
    var names := DisplayNames(ips, [timeout, timeout]);
    var infos := UntypedRecords(ips);
    var n0, n1 := "Cihaz-1 (10.0.0.1)", "Cihaz-2 (10.0.0.2)";
    TimeoutNames(timeout);
    assert n0 != n1 by {
      assert n0[6] != n1[6];
    }
    assert names[..1] == [n0] && infos[..1] == [infos[0]];
    var d0 := Put(EMPTY, n0, infos[0]);
    assert d0 == DeviceMap([n0], map[n0 := infos[0]]);
    assert Build(names[..1], infos[..1]) == d0;
    assert Build(names, infos) == Put(d0, n1, infos[1]);
    assert Put(d0, n1, infos[1]) == DeviceMap([n0, n1], map[n0 := infos[0], n1 := infos[1]]);
    assert infos[0] == DeviceInfo("unknown", "10.0.0.1") && infos[1] == DeviceInfo("unknown", "10.0.0.2");
    ChainRunDistinct(names, infos);
    assert ChainLinks(names) == [Link(n0, n1, ETHERNET_1G)];
  }

  /** The fallback names of two devices whose sysName query timed out. */
  lemma TimeoutNames(timeout: Snmp.Reply)
    requires timeout.errorIndication.Some?
    ensures DisplayNames(["10.0.0.1", "10.0.0.2"], [timeout, timeout]) == ["Cihaz-1 (10.0.0.1)", "Cihaz-2 (10.0.0.2)"]
  {
    var ips := ["10.0.0.1", "10.0.0.2"];
    var names := DisplayNames(ips, [timeout, timeout]);
    assert PyStr.DecimalString(1) == "1" && PyStr.DecimalString(2) == "2";
    assert names[0] == FallbackName(0, ips[0]) == "Cihaz-" + "1" + " (" + "10.0.0.1" + ")";
    assert names[1] == FallbackName(1, ips[1]) == "Cihaz-" + "2" + " (" + "10.0.0.2" + ")";
    assert "Cihaz-" + "1" + " (" + "10.0.0.1" + ")" == "Cihaz-1 (10.0.0.1)";
    assert "Cihaz-" + "2" + " (" + "10.0.0.2" + ")" == "Cihaz-2 (10.0.0.2)";
  }

  /**
   * Two devices under one name followed by another device (as-written behaviour): the
   * second device is linked to itself and so is the third, because the dict holds one
   * key fewer than the loop counts; the intended chain links a to a and a to b.
   */
  lemma {:induction false} CollisionMislinks(a: string, b: string, infos: seq<DeviceInfo>)
    requires a != b && |infos| == 3
    ensures ChainRun([a, a, b], infos).Ok?
    ensures ChainRun([a, a, b], infos).value.links == [Link(a, a, ETHERNET_1G), Link(b, b, ETHERNET_1G)]
    ensures ChainLinks([a, a, b]) == [Link(a, a, ETHERNET_1G), Link(a, b, ETHERNET_1G)]
  {
    var names := [a, a, b];
    RepeatedFirstName(names, infos);
    var d1 := DeviceMap([a], map[a := infos[1]]);
    var l1 := [Link(a, a, ETHERNET_1G)];
    ChainRunNext(names, infos, 2, ChainState(d1, l1));
    assert Put(d1, b, infos[2]).keys == [a, b];
    assert names[..3] == names && infos[..3] == infos;
  }

  /**
   * Not every collision mislinks: for names a, b, a the third assignment overwrites a
   * in place, the dict still lists a then b, and the loop builds the intended chain.
   */
  lemma {:induction false} ReturningNameLinksIntended(a: string, b: string, infos: seq<DeviceInfo>)
    requires a != b && |infos| == 3
    ensures ChainRun([a, b, a], infos).Ok?
    ensures ChainRun([a, b, a], infos).value.links == ChainLinks([a, b, a])
    ensures ChainLinks([a, b, a]) == [Link(a, b, ETHERNET_1G), Link(b, a, ETHERNET_1G)]
  {
    var names := [a, b, a];
    TwoDistinctNames(names, infos);
    var d := DeviceMap([a, b], map[a := infos[0], b := infos[1]]);
    ChainRunNext(names, infos, 2, ChainState(d, [Link(a, b, ETHERNET_1G)]));
    assert Put(d, a, infos[2]).keys == [a, b];
    assert names[..3] == names && infos[..3] == infos;
  }

  /** The first two iterations over two different names: both keys, and one link between them. */
  lemma TwoDistinctNames(names: seq<string>, infos: seq<DeviceInfo>)
    requires |names| == |infos| && |names| >= 2 && names[0] != names[1]
    ensures ChainRun(names[..2], infos[..2]) ==
      Ok(ChainState(DeviceMap([names[0], names[1]], map[names[0] := infos[0], names[1] := infos[1]]),
                    [Link(names[0], names[1], ETHERNET_1G)]))
  {
    var a, b := names[0], names[1];
    assert names[..0] == [] && infos[..0] == [];
    ChainRunNext(names, infos, 0, ChainState(EMPTY, []));
    var d0 := DeviceMap([a], map[a := infos[0]]);
    assert Put(EMPTY, a, infos[0]) == d0;
    ChainRunNext(names, infos, 1, ChainState(d0, []));
    var d1 := DeviceMap([a, b], map[a := infos[0], b := infos[1]]);
    assert Put(d0, b, infos[1]) == d1;
    var r1 := Step(ChainState(d0, []), b, infos[1], 1);
    assert r1.Ok? && r1.value.devices == d1 && r1.value.links == [Link(a, b, ETHERNET_1G)];
  }

  /** The first two iterations over one repeated name: one key, and a self-loop on it. */
  lemma RepeatedFirstName(names: seq<string>, infos: seq<DeviceInfo>)
    requires |names| == |infos| && |names| >= 2 && names[0] == names[1]
    ensures ChainRun(names[..2], infos[..2]) ==
      Ok(ChainState(DeviceMap([names[0]], map[names[0] := infos[1]]), [Link(names[0], names[0], ETHERNET_1G)]))
  {
    var a := names[0];
    assert names[..0] == [] && infos[..0] == [];
    ChainRunNext(names, infos, 0, ChainState(EMPTY, []));
    var d0 := DeviceMap([a], map[a := infos[0]]);
    assert Put(EMPTY, a, infos[0]) == d0;
    ChainRunNext(names, infos, 1, ChainState(d0, []));
    var d1 := DeviceMap([a], map[a := infos[1]]);
    assert Put(d0, a, infos[1]) == d1;
    var r1 := Step(ChainState(d0, []), a, infos[1], 1);
    assert r1.Ok? && r1.value.devices == d1 && r1.value.links == [Link(a, a, ETHERNET_1G)];
  }

  /**
   * Three devices under one name (as-written behaviour): in the third iteration the dict
   * lists one key, so `list(devices.keys())[1]` raises IndexError.
   */
  lemma {:induction false} CollisionRaises(a: string, infos: seq<DeviceInfo>)
    requires |infos| == 3
    ensures ChainRun([a, a, a], infos) == Err(IndexError(2))
  {
    var names := [a, a, a];
    RepeatedFirstName(names, infos);
    var d1 := DeviceMap([a], map[a := infos[1]]);
    ChainRunNext(names, infos, 2, ChainState(d1, [Link(a, a, ETHERNET_1G)]));
    assert Put(d1, a, infos[2]).keys == [a];
    assert names[..3] == names && infos[..3] == infos;
  }

  /**
   * The same address given twice with sysName "sw", then another address: the links
   * `main` builds are a self-loop on the first name and a self-loop on the last one.
   */
  lemma DuplicateAddressMislinks()
    ensures var ips := ["10.0.0.1", "10.0.0.1", "10.0.0.2"];
      var replies := [Snmp.Answer(Snmp.SYS_NAME_OID, "sw"), Snmp.Answer(Snmp.SYS_NAME_OID, "sw"),
                      Snmp.Answer(Snmp.SYS_NAME_OID, "sw")];
      var r := ChainRun(DisplayNames(ips, replies), UntypedRecords(ips));
      r.Ok? && r.value.links == [Link("sw (10.0.0.1)", "sw (10.0.0.1)", ETHERNET_1G),
                                 Link("sw (10.0.0.2)", "sw (10.0.0.2)", ETHERNET_1G)]
  {
    var ips := ["10.0.0.1", "10.0.0.1", "10.0.0.2"];
    var replies := [Snmp.Answer(Snmp.SYS_NAME_OID, "sw"), Snmp.Answer(Snmp.SYS_NAME_OID, "sw"),
                    Snmp.Answer(Snmp.SYS_NAME_OID, "sw")];
    var a, b := "sw (10.0.0.1)", "sw (10.0.0.2)";
    var names := DisplayNames(ips, replies);
    assert names[0] == "sw" + " (" + "10.0.0.1" + ")" == a;
    assert names[1] == a;
    assert names[2] == "sw" + " (" + "10.0.0.2" + ")" == b;
    assert names == [a, a, b];
    assert a != b by {
      assert a[11] != b[11];
    }
    CollisionMislinks(a, b, UntypedRecords(ips));
  }
}
