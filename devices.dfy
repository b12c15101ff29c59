/**
 * Device records and the `devices` dict shared by modul1.py and modul2.py: the
 * display name `"{sysName} ({ip})"` with its positional fallback `"Cihaz-{idx+1} ({ip})"`,
 * the per-device record `{"type": ..., "ip": ...}`, and the insertion-ordered dict
 * they are stored in.
 */
module Devices {
  import opened Wrappers
  import opened PyStr
  import Snmp

  /** The prefix of a fallback display name ("Cihaz" is Turkish for "device"). */
  const FALLBACK_PREFIX := "Cihaz-"

  /** Python truthiness of a query result: `None` and the empty string are false. */
  predicate Truthy(s: Option<string>)
  {
    s.Some? && s.value != ""
  }

  /** The `" ({ip})"` that ends every display name. */
  function IpSuffix(ip: string): string
  {
    " (" + ip + ")"
  }

  /** The name of the device at 0-based position `idx` whose sysName query gave nothing. */
  function FallbackName(idx: nat, ip: string): string
  {
    FALLBACK_PREFIX + DecimalString(idx + 1) + IpSuffix(ip)
  }

  /**
   * The display name of the device at 0-based position `idx`: the queried sysName when
   * it is truthy, the 1-based positional fallback otherwise; both end in `" ({ip})"`.
   */
  function DeviceName(sysName: Option<string>, ip: string, idx: nat): (name: string)
    ensures Truthy(sysName) ==> name == sysName.value + IpSuffix(ip)
    ensures !Truthy(sysName) ==> name == FallbackName(idx, ip)
  {
    if Truthy(sysName) then sysName.value + IpSuffix(ip) else FallbackName(idx, ip)
  }

  /** The display names of all devices, from their sysName replies, in input order. */
  function DisplayNames(ips: seq<string>, nameReplies: seq<Snmp.Reply>): (names: seq<string>)
    requires |nameReplies| == |ips|
    ensures |names| == |ips|
  {
    seq(|ips|, i requires 0 <= i < |ips| => DeviceName(Snmp.GetSnmpData(nameReplies[i]), ips[i], i))
  }

  /** No element occurs twice. */
  predicate Distinct<T(==)>(s: seq<T>)
  {
    forall i, j :: 0 <= i < j < |s| ==> s[i] != s[j]
  }

  /** The set of elements of `s`. */
  ghost function Elems(s: seq<string>): set<string>
  {
    set x | x in s
  }

  /** A list has at most as many elements as positions, exactly as many when it has no repeat. */
  lemma {:induction false} ElemsCard(s: seq<string>)
    ensures |Elems(s)| <= |s|
    ensures Distinct(s) <==> |Elems(s)| == |s|
    decreases |s|
  {
    if s != [] {
      var n := |s| - 1;
      var p, x := s[..n], s[n];
      ElemsCard(p);
      assert s == p + [x];
      assert Elems(s) == Elems(p) + {x};
      if x in p {
        var i :| 0 <= i < n && p[i] == x;
        assert s[i] == s[n];
      } else {
        assert Distinct(s) <==> Distinct(p);
      }
    }
  }

  /** Fallback names at different positions differ, whatever the addresses are. */
  lemma FallbackNamesDistinct(i: nat, j: nat, ipI: string, ipJ: string)
    requires i != j
    ensures FallbackName(i, ipI) != FallbackName(j, ipJ)
  {
    var di, dj := DecimalString(i + 1), DecimalString(j + 1);
    var p := FALLBACK_PREFIX;
    if FallbackName(i, ipI) == FallbackName(j, ipJ) {
      var n := FallbackName(i, ipI);
      assert n == p + (di + IpSuffix(ipI)) && n == p + (dj + IpSuffix(ipJ));
      assert n[|p|..] == di + IpSuffix(ipI) && n[|p|..] == dj + IpSuffix(ipJ);
      LeadingDigitsOf(di, IpSuffix(ipI));
      LeadingDigitsOf(dj, IpSuffix(ipJ));
      DecimalStringInjective(i + 1, j + 1);
      assert false;
    }
  }

  /** When every sysName query fails, all display names are distinct (1-based numbering). */
  lemma AllFailedNamesDistinct(ips: seq<string>, nameReplies: seq<Snmp.Reply>)
    requires |nameReplies| == |ips|
    requires forall i :: 0 <= i < |ips| ==> !Truthy(Snmp.GetSnmpData(nameReplies[i]))
    ensures Distinct(DisplayNames(ips, nameReplies))
  {
    var names := DisplayNames(ips, nameReplies);
    forall i, j | 0 <= i < j < |names|
      ensures names[i] != names[j]
    {
      FallbackNamesDistinct(i, j, ips[i], ips[j]);
    }
  }

  /** The text after the last '(' of `s`, or all of `s` when it has none. */
  function AfterLastOpen(s: string): string
    decreases |s|
  {
    if s == [] then []
    else if s[|s| - 1] == '(' then []
    else AfterLastOpen(s[..|s| - 1]) + [s[|s| - 1]]
  }

  /** The address a display name ends with: the text between its last '(' and the final ')'. */
  function IpOfName(name: string): string
  {
    var t := AfterLastOpen(name);
    if t != [] && t[|t| - 1] == ')' then t[..|t| - 1] else t
  }

  lemma {:induction false} AfterLastOpenOf(p: string, t: string)
    requires '(' !in t
    ensures AfterLastOpen(p + "(" + t) == t
    decreases |t|
  {
    var s := p + "(" + t;
    if t == [] {
      assert s[|s| - 1] == '(';
    } else {
      assert s[..|s| - 1] == p + "(" + t[..|t| - 1];
      assert t == t[..|t| - 1] + [t[|t| - 1]];
      assert '(' !in t[..|t| - 1];
      AfterLastOpenOf(p, t[..|t| - 1]);
      assert t == t[..|t| - 1] + [t[|t| - 1]];
    }
  }

  /** An address without '(' can be read back from any display name built with it. */
  lemma IpRecoverable(sysName: Option<string>, ip: string, idx: nat)
    requires '(' !in ip
    ensures IpOfName(DeviceName(sysName, ip, idx)) == ip
  {
    var name := DeviceName(sysName, ip, idx);
    var head := if Truthy(sysName) then sysName.value else FALLBACK_PREFIX + DecimalString(idx + 1);
    assert name == (head + " ") + "(" + (ip + ")");
    assert '(' !in ip + ")";
    AfterLastOpenOf(head + " ", ip + ")");
    assert (ip + ")")[..|ip|] == ip;
  }

  /**
   * Distinct addresses free of '(' give distinct display names, whatever the queries
   * return; this is what keeps the `devices` dict from merging two devices.
   */
  lemma DistinctIpsDistinctNames(ips: seq<string>, nameReplies: seq<Snmp.Reply>)
    requires |nameReplies| == |ips|
    requires Distinct(ips)
    requires forall i :: 0 <= i < |ips| ==> '(' !in ips[i]
    ensures Distinct(DisplayNames(ips, nameReplies))
  {
    var names := DisplayNames(ips, nameReplies);
    forall i, j | 0 <= i < j < |names|
      ensures names[i] != names[j]
    {
      IpRecoverable(Snmp.GetSnmpData(nameReplies[i]), ips[i], i);
      IpRecoverable(Snmp.GetSnmpData(nameReplies[j]), ips[j], j);
    }
  }

  /** The record stored per device, the dict `{"type": deviceType, "ip": ip}`. */
  datatype DeviceInfo = DeviceInfo(deviceType: string, ip: string)

  /** The record modul1.py stores: its type is always "unknown". */
  function UntypedRecord(ip: string): (r: DeviceInfo)
    ensures r.deviceType == "unknown" && r.ip == ip
  {
    DeviceInfo("unknown", ip)
  }

  /** The `devices` dict: its keys in insertion order and its key-to-record mapping. */
  datatype DeviceMap = DeviceMap(keys: seq<string>, info: map<string, DeviceInfo>)

  /** A dict lists each key once, and lists exactly the keys it maps. */
  ghost predicate Valid(d: DeviceMap)
  {
    Distinct(d.keys) && forall k :: k in d.info <==> k in d.keys
  }

  /** The empty dict `{}`. */
  const EMPTY := DeviceMap([], map[])

  /** `d[k] = v`: a new key goes last; a present key keeps its place and takes the new value. */
  function Put(d: DeviceMap, k: string, v: DeviceInfo): DeviceMap
  {
    if k in d.info then DeviceMap(d.keys, d.info[k := v])
    else DeviceMap(d.keys + [k], d.info[k := v])
  }

  /**
   * `d[k] = v` maps `k` to `v` and leaves every other key and its record alone; a new
   * key is appended to the key order, a present key keeps its position.
   */
  lemma PutSpec(d: DeviceMap, k: string, v: DeviceInfo)
    ensures k in Put(d, k, v).info && Put(d, k, v).info[k] == v
    ensures forall j :: j != k ==> (j in Put(d, k, v).info <==> j in d.info)
    ensures forall j :: j != k && j in d.info ==> Put(d, k, v).info[j] == d.info[j]
    ensures k in d.info ==> Put(d, k, v).keys == d.keys
    ensures k !in d.info ==> Put(d, k, v).keys == d.keys + [k]
  {
  }

  /** Assignment keeps a dict well formed. */
  lemma PutValid(d: DeviceMap, k: string, v: DeviceInfo)
    requires Valid(d)
    ensures Valid(Put(d, k, v))
  {
  }

  /** The dict after `devices[names[i]] = infos[i]` for every i in order, starting from `{}`. */
  function Build(names: seq<string>, infos: seq<DeviceInfo>): DeviceMap
    requires |names| == |infos|
    decreases |names|
  {
    if names == [] then EMPTY
    else Put(Build(names[..|names| - 1], infos[..|infos| - 1]), names[|names| - 1], infos[|infos| - 1])
  }

  /** The dict is well formed and maps exactly the names that were put into it. */
  lemma {:induction false} BuildValid(names: seq<string>, infos: seq<DeviceInfo>)
    requires |names| == |infos|
    ensures Valid(Build(names, infos))
    ensures forall k :: k in Build(names, infos).info <==> k in names
    decreases |names|
  {
    if names != [] {
      var n := |names| - 1;
      BuildValid(names[..n], infos[..n]);
      PutValid(Build(names[..n], infos[..n]), names[n], infos[n]);
      assert names == names[..n] + [names[n]];
    }
  }

  /** With distinct names the dict keeps every device, in input order. */
  lemma {:induction false} BuildDistinct(names: seq<string>, infos: seq<DeviceInfo>)
    requires |names| == |infos|
    requires Distinct(names)
    ensures Build(names, infos).keys == names
    decreases |names|
  {
    if names != [] {
      var n := |names| - 1;
      assert Distinct(names[..n]);
      BuildDistinct(names[..n], infos[..n]);
      BuildValid(names[..n], infos[..n]);
      assert names[n] !in names[..n];
      assert names == names[..n] + [names[n]];
    }
  }

  /**
   * The record stored under a name is the one of the name's last occurrence; with
   * distinct names every device keeps its own record.
   */
  lemma {:induction false} BuildLastWins(names: seq<string>, infos: seq<DeviceInfo>, i: nat)
    requires |names| == |infos|
    requires i < |names|
    requires forall j :: i < j < |names| ==> names[j] != names[i]
    ensures names[i] in Build(names, infos).info
    ensures Build(names, infos).info[names[i]] == infos[i]
    decreases |names|
  {
    var n := |names| - 1;
    if i < n {
      BuildLastWins(names[..n], infos[..n], i);
    }
  }

  /** Every record in the dict is the record of some device stored under that device's name. */
  lemma {:induction false} BuildValuesFromInputs(names: seq<string>, infos: seq<DeviceInfo>)
    requires |names| == |infos|
    ensures forall k :: k in Build(names, infos).info ==>
      exists i :: 0 <= i < |names| && names[i] == k && Build(names, infos).info[k] == infos[i]
    decreases |names|
  {
    if names != [] {
      var n := |names| - 1;
      BuildValuesFromInputs(names[..n], infos[..n]);
      forall k | k in Build(names, infos).info
        ensures exists i :: 0 <= i < |names| && names[i] == k && Build(names, infos).info[k] == infos[i]
      {
        if k != names[n] {
          var prev := Build(names[..n], infos[..n]);
          assert Build(names, infos).info == prev.info[names[n] := infos[n]];
          assert k in prev.info && Build(names, infos).info[k] == prev.info[k];
          var i :| 0 <= i < n && names[..n][i] == k && Build(names[..n], infos[..n]).info[k] == infos[..n][i];
          assert names[i] == k && infos[i] == infos[..n][i];
        }
      }
    }
  }

  /** The dict never has more keys than there were assignments. */
  lemma BuildSize(names: seq<string>, infos: seq<DeviceInfo>)
    requires |names| == |infos|
    ensures |Build(names, infos).keys| <= |names|
    ensures |Build(names, infos).keys| == |Elems(names)|
  {
    var keys := Build(names, infos).keys;
    BuildValid(names, infos);
    assert Elems(keys) == Elems(names);
    ElemsCard(keys);
    ElemsCard(names);
  }

  /**
   * Two devices with the same display name leave the dict with fewer keys than there
   * are devices: the later assignment overwrites the earlier one's record.
   */
  lemma CollisionShrinks(names: seq<string>, infos: seq<DeviceInfo>)
    requires |names| == |infos| && !Distinct(names)
    ensures |Build(names, infos).keys| < |names|
  {
    BuildSize(names, infos);
    ElemsCard(names);
  }
}
