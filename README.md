# SNMP topology discovery, modelled in Dafny

The repository is a pair of scripts, `modul1.py` and `modul2.py`. Each one polls a list of
IP addresses over SNMP, builds a `devices` dict keyed by display name and a `links` list,
and turns both into a networkx graph.

- **`modul1.py`** asks each device for its sysName. It stores every device with type
  `"unknown"`. It then chains the devices: each device after the first is linked from
  the key at position idx-1 of the dict's current key list. When the display names are
  distinct, that key is the device before it.
- **`modul2.py`** also asks for sysDescr. It classifies each device as router, switch,
  server or unknown. It then gives every device one to three links to randomly sampled
  other devices.

The model covers the parts of both scripts that compute something:

- the way an SNMP reply becomes a value or `None`;
- the classifier;
- display naming and the insertion-ordered dict of records;
- both link-building loops;
- `create_network_graph`.

The modules are:

- `Snmp`: the reply-to-result mapping of `get_snmp_data`.
- `Classifier`: `detect_device_type`.
- `PyStr`: the `str` operations the scripts rely on: `lower()`, `in` and `str(n)`.
- `Devices`: naming, and the `devices` dict as an insertion-ordered map (`DeviceMap`).
  Assigning a new key appends it. Assigning an existing key keeps its place and replaces
  its value.
- `NetworkGraph`: a `Graph` class with `AddNode` and `AddEdge`. The functions
  `NodesOf` and `EdgesOf` give the graph that `create_network_graph` builds. An edge is
  the set of its two endpoints, so `(u, v)` and `(v, u)` are the same edge.
- `ChainTopology`: the loop of `modul1.py`'s `main`.
- `FanOutTopology`: the two loops of `modul2.py`'s `main`.

Inputs that the model receives as parameters:

- Each SNMP query is replaced by the reply it returns (`Snmp.Reply`).
- Each device's `random.randint` and `random.sample` calls are replaced by what they
  yield (`FanOutTopology.Draw`): the link count, and the positions that `sample` picks
  in the population. `ValidDraws` states what the random module can yield: a count in
  range, and that many distinct positions inside the population. The population
  itself, `[d for d in device_names if d != device]`, is modelled (`Population`), so
  which devices can become targets follows from the code.

Behaviour of the scripts worth knowing:

- The fallback name is `Cihaz-<n> (<ip>)`, numbered from 1 in input order.
- Queries run one after another. Nothing is concurrent.
- `modul1.py` stores type `"unknown"` for every device.
- Display names can collide. The chain loop can then pick the wrong device or raise IndexError (first finding): names a, a, b mislink, while a, b, a give the intended chain.
- The fan-out guard never rejects a link. Both directions of a pair can therefore
  appear (second finding).
- With a single address, `modul2.py` raises `ValueError` from `randint(1, 0)`. Only
  `modul1.py` then gives a device map with no links.

## Model

| member | source | states |
|---|---|---|
| Snmp.GetSnmpData | modul1.py:21-29 | An error indication gives `None`. A non-zero error status gives `None`. Otherwise there is no value exactly when there are no bindings, and the value is the first binding's value. |
| Snmp.FirstValue | modul2.py:24-26 | The loop over the bindings returns the first value. It falls through to `None` exactly when there are no bindings. |
| Snmp.AnswerRoundTrip | modul2.py:18-26 | A reply without error yields its first bound value, whatever bindings follow. |
| PyStr.Lower | modul2.py:37 | `lower()` keeps the length and lower-cases each character. |
| PyStr.LowerIdempotent | modul2.py:37 | Lower-casing an already lower-cased string changes nothing. |
| PyStr.Contains | modul2.py:38-42 | Python's `kw in s`: the keyword occurs as a contiguous run of the text. The empty keyword is in every text. |
| PyStr.ContainsIff | modul2.py:38 | The substring scan succeeds exactly when the keyword occurs at some position. |
| PyStr.ContainsInContext | modul2.py:38-42 | A keyword found in a part of the text is found in the whole text. |
| PyStr.MissingFirstChar | modul2.py:38 | A keyword whose first character never occurs in the text is not found. |
| PyStr.DecimalString | modul1.py:81 | `str(idx+1)` is a non-empty run of decimal digits, with no leading zero except for 0 itself. |
| PyStr.DecimalRoundTrip | modul1.py:81 | Reading back `str(n)` as a number gives `n`. |
| PyStr.DecimalStringInjective | modul1.py:81 | Different numbers print differently. |
| PyStr.LeadingDigitsOf | modul1.py:81 | The digits of `str(n)` followed by the space of the fallback name are read back as exactly those digits. |
| Classifier.DetectDeviceType | modul2.py:34-45 | The type is always one of router, switch, server or unknown. An absent or empty description gives unknown. |
| Classifier.DetectFollowsRules | modul2.py:37-45 | For a non-empty description, the type is the label of the first rule, in the order router, switch, then server/linux/windows, that matches the lower-cased text. Unknown when none matches. |
| Classifier.FirstMatchWins | modul2.py:38-43 | When rule k is the first matching rule, its label is the result. |
| Classifier.FirstMatchNone | modul2.py:44-45 | When no rule matches, the result is unknown. |
| Classifier.CaseInsensitive | modul2.py:37 | Classifying `s` and classifying `s.lower()` give the same type. |
| Classifier.LowerConcat | modul2.py:37 | Lower-casing distributes over concatenation. |
| Classifier.RouterWins | modul2.py:38-39 | A description in which "router" occurs, in any letter case, is a router, whatever else it contains. |
| Classifier.SwitchBeatsServer | modul2.py:40-43 | Without "router", a description in which "switch" occurs is a switch, even if it also names server, linux or windows. |
| Classifier.CiscoSwitchIsSwitch | modul2.py:40-41 | "Cisco IOS Switch" is a switch. |
| Classifier.LinuxRouterIsRouter | modul2.py:38-43 | "Linux Router" is a router, not a server. |
| Devices.Truthy | modul1.py:78 | `if sys_name:`: a result is truthy exactly when it is present and not the empty string. |
| Devices.DeviceName | modul1.py:78-81 | A truthy sysName gives `sysName (ip)`. `None` and the empty string give `Cihaz-<idx+1> (ip)`. |
| Devices.DisplayNames | modul2.py:142-145 | There is one display name per address, in input order. |
| Devices.FallbackNamesDistinct | modul1.py:80-81 | Fallback names at different positions differ, whatever the addresses. |
| Devices.AllFailedNamesDistinct | modul1.py:76-81 | When every sysName query fails, all display names are pairwise distinct. |
| Devices.AfterLastOpenOf | modul1.py:79-81 | The text after the last `(` of a name ending in `(t` with no `(` in `t` is `t`. |
| Devices.IpRecoverable | modul1.py:79-81 | The address can be read back from any display name built from it, if it contains no `(`. |
| Devices.DistinctIpsDistinctNames | modul1.py:76-83 | Distinct addresses without `(` give distinct display names, whatever the replies. |
| Devices.UntypedRecord | modul1.py:83 | The record is `{"type": "unknown", "ip": ip}`. |
| Devices.Put | modul1.py:83 | `d[k] = v`: a new key goes last; a present key keeps its place and takes the new value. |
| Devices.PutSpec | modul1.py:83 | After `d[k] = v`, `k` maps to `v` and every other key keeps its record. A new key is appended to the key order. A present key keeps its position. |
| Devices.PutValid | modul1.py:83 | Assigning a key keeps the dict well formed: keys are distinct and the key list matches the stored keys. |
| Devices.Build | modul1.py:76-83 | The dict after the loop's assignments `devices[name] = record`, in input order, starting from `{}`. |
| Devices.BuildSize | modul2.py:147 | The dict has one key per distinct display name, so never more keys than devices. |
| Devices.CollisionShrinks | modul1.py:83-87 | Any repeated display name leaves the dict with fewer keys than devices. The predecessor lookup by position assumes one key per device. |
| Devices.BuildValid | modul2.py:147 | The dict after the loop is well formed, and its keys are exactly the display names. |
| Devices.BuildDistinct | modul1.py:83 | With distinct names, the dict's keys are the names in input order. |
| Devices.BuildLastWins | modul2.py:147 | A name's record is the one stored by the last device carrying that name. |
| Devices.BuildValuesFromInputs | modul2.py:147 | Every stored record is the record of some device carrying that key. |
| NetworkGraph.EdgeOf | modul1.py:44 | An edge holds both endpoints and has one or two of them. |
| NetworkGraph.Graph.constructor | modul1.py:40 | `nx.Graph()` has no nodes and no edges. |
| NetworkGraph.Graph.AddNode | modul1.py:42 | `add_node` sets the node's attributes to the device record and leaves the edges alone. |
| NetworkGraph.Graph.AddEdge | modul1.py:44 | `add_edge` adds any missing endpoint as a bare node and sets the undirected edge's attributes. |
| NetworkGraph.CreateNetworkGraph | modul1.py:39-45 | A fresh graph whose nodes are `NodesOf(devices, links)` and whose edges are `EdgesOf(links)`: every device in dict order, then every link in list order. |
| NetworkGraph.NodesOf | modul1.py:39-45 | The node map `create_network_graph` builds: one node per device with its record, then any link endpoint not yet a node, without attributes. |
| NetworkGraph.EdgesOf | modul1.py:43-44 | The edge map `create_network_graph` builds: one edge per endpoint set, carrying the attributes of the last link on it. |
| NetworkGraph.NodesOfSpec | modul2.py:47-53 | The nodes are the devices plus the link endpoints. Every device node carries its record. Only an endpoint that is not a device is a bare node. |
| NetworkGraph.EdgesOfKeys | modul2.py:51-52 | The edges are exactly the unordered pairs of the links, with duplicates collapsed. |
| NetworkGraph.EdgesUniform | modul2.py:51-52 | When every link carries the same attributes, so does every edge. |
| NetworkGraph.NoSelfLoops | modul1.py:43-44 | Links between distinct devices give only two-endpoint edges. |
| NetworkGraph.SameEdges | modul1.py:43-44 | Two link lists with the same unordered pairs and uniform attributes give the same edges. |
| ChainTopology.UntypedRecords | modul1.py:83 | There is one record per address. |
| ChainTopology.ChainRun | modul1.py:76-88 | If the loop completes: the dict is the assignments in order, there is no link for zero or one device and N-1 links otherwise, link i ends at device i+1, and every link is ethernet/1Gbps. |
| ChainTopology.Step | modul1.py:83-88 | One iteration: assign the record, then for idx > 0 link from the key at position idx-1 of the dict, or raise IndexError when there is no such key. |
| ChainTopology.StepSpec | modul1.py:83-88 | An iteration raises exactly when the dict, after the assignment, has fewer than idx keys. Otherwise the dict is the assigned one. For idx > 0 exactly one ethernet/1Gbps link into the new name, from a key of the dict, is appended. |
| ChainTopology.ChainRunNext | modul1.py:76-88 | One more iteration is one more step of the loop body. |
| ChainTopology.ChainRunErrorStops | modul1.py:87 | Once `[idx - 1]` raises, the loop's result stays that error. |
| ChainTopology.ChainRunDistinct | modul1.py:85-88 | With distinct names, the loop never raises. The dict lists every device in input order, and the links are exactly the intended chain: device i linked to device i+1. |
| ChainTopology.DiscoverChain | modul1.py:76-88 | The loop's dict and links, or its IndexError, are those of `ChainRun`. With distinct names, the result is the intended chain. |
| ChainTopology.ChainGraphNodes | modul1.py:39-45 | With distinct names, the chain's graph nodes are exactly the devices, each carrying its record. |
| ChainTopology.ChainGraphEdges | modul1.py:39-45 | With distinct names, the edges are exactly the path of devices in input order, with no self-loop. |
| ChainTopology.TwoUnreachableDevices | modul1.py:76-88 | Two timed-out devices give `Cihaz-1 (10.0.0.1)` and `Cihaz-2 (10.0.0.2)`, both unknown, and one ethernet/1Gbps link between them. |
| ChainTopology.TimeoutNames | modul1.py:80-81 | Two timed-out devices get the fallback names 1 and 2. |
| ChainTopology.CollisionMislinks | modul1.py:83-88 | Names a, a, b: the loop links a to itself and b to itself. The intended chain links a to a and a to b. |
| ChainTopology.ReturningNameLinksIntended | modul1.py:83-88 | Names a, b, a with a != b: the third assignment overwrites a in place, the key list stays a, b, and the loop builds exactly the intended chain. |
| ChainTopology.TwoDistinctNames | modul1.py:83-88 | After two iterations over two different names, the dict lists both, in order, and holds one link from the first to the second. |
| ChainTopology.RepeatedFirstName | modul1.py:83-88 | When the first two names are equal, after two iterations the dict has one key, holding the second record, and the only link is a self-loop on that key. |
| ChainTopology.CollisionRaises | modul1.py:86-87 | Names a, a, a: the third iteration raises IndexError. |
| ChainTopology.DuplicateAddressMislinks | modul1.py:76-88 | The address 10.0.0.1 given twice, then 10.0.0.2, all answering "sw", give two self-loops. |
| FanOutTopology.TypedRecords | modul2.py:139-147 | There is one record per address, typed by the classifier from its sysDescr reply. |
| FanOutTopology.DiscoverDevices | modul2.py:137-147 | The dict is the assignments of the loop in order. It is well formed, and every stored type is one of the four labels. |
| FanOutTopology.MaxLinks | modul2.py:153 | `min(3, len(device_names) - 1)`. |
| FanOutTopology.Population | modul2.py:155 | The comprehension's result holds exactly the devices of the list other than `device`. |
| FanOutTopology.PopulationNext | modul2.py:155 | Filtering one more device appends it unless it is `device` itself. |
| FanOutTopology.PopulationDistinct | modul2.py:151-155 | The dict's keys have no repeats, so neither has the population. |
| FanOutTopology.Sample | modul2.py:155 | `random.sample` returns as many elements as positions picked, each one from the population. |
| FanOutTopology.ValidDraw | modul2.py:154-155 | What `randint(1, max_links)` and `sample(population, link_count)` can return for one device: a count between 1 and `max_links`, and that many distinct positions in the population. |
| FanOutTopology.ValidDraws | modul2.py:152-155 | One such draw per device of the loop. |
| FanOutTopology.Targets | modul2.py:152-155 | There is one target list per device. |
| FanOutTopology.DrawnTargets | modul2.py:153-155 | Device i gets `randint`'s count of targets. Every target is another device of the list. With distinct keys, no target repeats. |
| FanOutTopology.SampleFor | modul2.py:153-155 | One iteration's random calls give device i's targets, between 1 and `max_links` of them. |
| FanOutTopology.AppendDeviceLinks | modul2.py:156-159 | The inner loop appends one ethernet/1Gbps link per target, in sample order, to the existing list. |
| FanOutTopology.FanOutLinks | modul2.py:152-159 | The outer loop's links: each device's block in dict order. Every link is ethernet/1Gbps. |
| FanOutTopology.FanOutLinksNext | modul2.py:152-159 | One more device of the outer loop appends that device's block. |
| FanOutTopology.GuardPasses | modul2.py:158 | The guard as written: neither `(device, target)` nor `(target, device)` equals an entry of `links`. |
| FanOutTopology.GuardNeverRejects | modul2.py:158 | The pair test compares 2-tuples against 3-tuples, so it never finds a match and lets every link through. |
| FanOutTopology.DeviceLinks | modul2.py:156-159 | One device's block appends one link per drawn target. |
| FanOutTopology.RandomFanOut | modul2.py:150-159 | Zero devices give no links. One device raises the empty-range error. Two or more give, device by device, one ethernet/1Gbps link per drawn target. |
| FanOutTopology.FanOutMembers | modul2.py:152-159 | A pair is a link exactly when the target is in that device's target list. |
| FanOutTopology.FanOutNoSelfLoops | modul2.py:153-159 | Every link joins two distinct devices of the list and is ethernet/1Gbps, because the population excludes the device itself. |
| FanOutTopology.FanOutCount | modul2.py:152-159 | The number of links is the sum of the drawn link counts, between N and 3N. |
| FanOutTopology.FanOutCountValid | modul2.py:152-159 | The number of links is the sum of `randint`'s counts, between N and 3N for N devices. |
| FanOutTopology.FanOutTargetsDistinct | modul2.py:152-159 | With distinct devices and repeat-free target lists, two links from the same device go to different targets. |
| FanOutTopology.FanOutNoRepeatedLink | modul2.py:151-159 | Over the dict's keys, two links from the same device go to different targets, since `sample` draws without replacement. |
| FanOutTopology.PairPopulations | modul2.py:155 | Between two devices, each one's population is the other device. |
| FanOutTopology.PairTargets | modul2.py:153-155 | Two devices each sampling position 0 of their population draw each other. |
| FanOutTopology.BothDirectionsKept | modul2.py:158-159 | Two devices that draw each other get both `(a, b)` and `(b, a)`, two entries for one undirected pair. |
| FanOutTopology.DedupSpec | modul2.py:157-158 | The intended guard keeps at most one link per undirected pair, keeps only input links, and keeps every pair. |
| FanOutTopology.DedupSameGraph | modul2.py:157-161 | The links as written and the deduplicated links build the same graph edges. |
| FanOutTopology.FanOutEndpoints | modul2.py:155 | Every link endpoint is a device of the dict. |
| FanOutTopology.FanOutGraphNodes | modul2.py:161 | The fan-out graph's nodes are exactly the devices, each with its record and type. |
| FanOutTopology.FanOutGraphEdges | modul2.py:161 | Every edge of the fan-out graph joins two distinct devices. |
| FanOutTopology.SingleSwitch | modul2.py:137-147 | A single address answering "core-sw" and "Cisco IOS Switch" is stored as `core-sw (10.0.0.1)` with type switch. |
| FanOutTopology.SingleEntry | modul2.py:147 | One assignment into the empty dict gives a dict with that one key and record. |
| FanOutTopology.SwitchName | modul2.py:142-143 | sysName "core-sw" at 10.0.0.1 gives the name `core-sw (10.0.0.1)`. |
| FanOutTopology.SwitchRecord | modul2.py:139-147 | sysDescr "Cisco IOS Switch" gives the record `{"type": "switch", "ip": "10.0.0.1"}`. |

## Left out

- The SNMP transport (pysnmp engine, UDP target, community data, `getCmd`): each query's reply is an input.
- `asyncio`: the scripts await each query in turn, so the model is sequential.
- Printing of query errors and of the saved file name.
- `parse_args`: the address list is a parameter. The community string is dropped: it only reaches the SNMP transport, which is not modelled.
- Drawing and saving the graph (matplotlib, spring and Kamada-Kawai layouts, PNG output): these are floating point and file I/O.
- The internals of `random.randint` and `random.sample`: their results are inputs, constrained by `ValidDraws` to what they can yield. Seeding is not modelled.
- networkx internals: only the observable node and edge maps of `Graph` are modelled.
- The commented-out draft inside the triple-quoted string at the end of `modul1.py`: it is dead code.
- `prettyPrint()`: bound values are modelled as the strings it produces.
- PyStr.Lower: maps only ASCII A-Z. Python's `str.lower()` also lower-cases non-ASCII letters.

## Findings

| source | as written | input that shows it | evidently intended | confidence | as-written member | corrected member |
|---|---|---|---|---|---|---|
| modul1.py:83-88 | The predecessor is `list(devices.keys())[idx - 1]`. When two devices share a display name, the dict has fewer keys than iterations (`Devices.CollisionShrinks`, for every such input). The lookup can then pick the wrong device or raise IndexError (a, a, b mislinks; a, b, a does not). | Addresses 10.0.0.1, 10.0.0.1, 10.0.0.2, all answering sysName "sw": the links are two self-loops. Three devices with one name raise IndexError. | Device i is linked to device i-1 of the input order. | not executed | ChainTopology.CollisionMislinks | ChainTopology.ChainLinks |
| modul2.py:158 | The guard looks for 2-tuples in a list of 3-tuples, so it never rejects anything. | Devices a and b, each sampling position 0 of its population, draw each other: the links are `(a, b)` and `(b, a)`. | Each undirected pair is kept once. | not executed | FanOutTopology.BothDirectionsKept | FanOutTopology.Dedup |
