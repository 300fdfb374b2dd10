/** The `Container` and `ContainerPort` models
    (backend/app/database/dodoco/container.py): port definitions and the
    port map handed to Docker, the container naming rule and run options
    of `create`, the image tag `commit` writes, the record changes of
    `add_port_mapping`, `destroy` and `check_existance`, and `to_dict`. */
module ContainerModel {
  import opened Wrappers
  import opened Text
  import opened Json
  import opened Records
  import opened BackendText
  import opened ProjectModel

  // ---------------------------------------------------------------- protocols

  /** `DockerPortProtocol.name`: the lowercase member name. */
  function ProtocolName(p: Protocol): (s: string)
    ensures s in {"tcp", "udp", "stcp"}
  {
    match p
    case Tcp => "tcp"
    case Udp => "udp"
    case Stcp => "stcp"
  }

  /** `DockerPortProtocol[name]`; None for a KeyError. */
  function ProtocolNamed(s: string): (r: Option<Protocol>)
    ensures r.Some? ==> ProtocolName(r.value) == s
    ensures r.None? <==> s !in {"tcp", "udp", "stcp"}
  {
    if s == "tcp" then Some(Tcp)
    else if s == "udp" then Some(Udp)
    else if s == "stcp" then Some(Stcp)
    else None
  }

  /** Looking a protocol up by its name gives the protocol back. */
  lemma ProtocolNamedOfName(p: Protocol)
    ensures ProtocolNamed(ProtocolName(p)) == Some(p)
  {
    match p
    case Tcp =>
    case Udp =>
    case Stcp =>
  }

  // ---------------------------------------------------------------- port map

  /** The key `to_docker_port_def` uses: `"<container_port>/<protocol>"`. */
  function PortKey(containerPort: int, protocol: Protocol): string {
    IntToString(containerPort) + ['/'] + ProtocolName(protocol)
  }

  /** The key of a port row. */
  function KeyOf(o: Port): string {
    PortKey(o.containerPort, o.protocol)
  }

  lemma NoSlashInIntToString(n: int)
    ensures '/' !in IntToString(n)
  {
    var s := NatToString(if n < 0 then -n else n);
    assert forall k :: 0 <= k < |s| ==> IsDigit(s[k]);
  }

  /** The container port can be read back from the front of a key. */
  lemma PortKeyPort(n: int, p: Protocol)
    ensures ParseInt(PortKey(n, p)) == Some(n)
  {
    var tail := ['/'] + ProtocolName(p);
    calc {
      ParseInt(PortKey(n, p));
      { assert PortKey(n, p) == IntToString(n) + tail; }
      ParseInt(IntToString(n) + tail);
      { assert tail[0] == '/'; ParseIntOfIntToString(n, tail); }
      Some(n);
    }
  }

  /** Two port rows share a key exactly when they share the container port
      and the protocol. */
  lemma PortKeyInjective(a: int, pa: Protocol, b: int, pb: Protocol)
    ensures PortKey(a, pa) == PortKey(b, pb) <==> a == b && pa == pb
  {
    if PortKey(a, pa) == PortKey(b, pb) {
      PortKeyPort(a, pa);
      PortKeyPort(b, pb);
      var s := PortKey(a, pa);
      var n := |IntToString(a)| + 1;
      assert s[n..] == ProtocolName(pa);
      assert s[n..] == ProtocolName(pb);
      ProtocolNamedOfName(pa);
      ProtocolNamedOfName(pb);
    }
  }

  /** `ContainerPort.to_docker_port_def()`: one entry, key to exposed port. */
  function PortDef(o: Port): (m: map<string, int>)
    ensures m.Keys == {KeyOf(o)} && m[KeyOf(o)] == o.exposedPort
  {
    map[KeyOf(o) := o.exposedPort]
  }

  /** `d.update({key(x): value(x)})` for each row in order: a later row
      overwrites an earlier one with the same key. */
  function UpdateAll<T>(rows: seq<T>, key: T -> string, value: T -> int): (m: map<string, int>)
    ensures forall j :: 0 <= j < |rows| ==> key(rows[j]) in m
    decreases |rows|
  {
    if rows == [] then map[]
    else
      var init := rows[..|rows| - 1];
      var last := rows[|rows| - 1];
      assert forall j :: 0 <= j < |init| ==> init[j] == rows[j];
      UpdateAll(init, key, value)[key(last) := value(last)]
  }

  /** The keys of the result are the keys of the rows. */
  lemma {:induction false} UpdateAllKeys<T>(rows: seq<T>, key: T -> string, value: T -> int, k: string)
    ensures k in UpdateAll(rows, key, value) <==> exists j :: 0 <= j < |rows| && key(rows[j]) == k
    decreases |rows|
  {
    if rows != [] {
      var init := rows[..|rows| - 1];
      UpdateAllKeys(init, key, value, k);
      assert forall j :: 0 <= j < |init| ==> init[j] == rows[j];
    }
  }

  /** The value under a key is that of the last row with the key. */
  lemma {:induction false} UpdateAllLastWins<T>(rows: seq<T>, key: T -> string, value: T -> int, j: nat)
    requires j < |rows|
    requires forall k :: j < k < |rows| ==> key(rows[k]) != key(rows[j])
    ensures UpdateAll(rows, key, value)[key(rows[j])] == value(rows[j])
    decreases |rows|
  {
    if j < |rows| - 1 {
      var init := rows[..|rows| - 1];
      assert init[j] == rows[j];
      UpdateAllLastWins(init, key, value, j);
    }
  }

  /** Updating with one more row. */
  lemma UpdateAllAppend<T>(rows: seq<T>, x: T, key: T -> string, value: T -> int)
    ensures UpdateAll(rows + [x], key, value) == UpdateAll(rows, key, value)[key(x) := value(x)]
  {
    assert (rows + [x])[..|rows|] == rows;
  }

  function ExposedOf(o: Port): int {
    o.exposedPort
  }

  /** The `ports` dict of `get_container_ports` built from the given rows:
      each row's `to_docker_port_def()` merged in order. */
  function PortsOf(rows: seq<Port>): (m: map<string, int>)
    ensures forall j :: 0 <= j < |rows| ==> KeyOf(rows[j]) in m && PortDef(rows[j]).Keys <= m.Keys
  {
    UpdateAll(rows, KeyOf, ExposedOf)
  }

  /** A key is in the map exactly when a row has it. */
  lemma PortsOfKeys(rows: seq<Port>, k: string)
    ensures k in PortsOf(rows) <==> exists j :: 0 <= j < |rows| && KeyOf(rows[j]) == k
  {
    UpdateAllKeys(rows, KeyOf, ExposedOf, k);
  }

  /** The value under a key is the exposed port of the last row with that
      key. */
  lemma PortsOfLastWins(rows: seq<Port>, j: nat)
    requires j < |rows|
    requires forall k :: j < k < |rows| ==> KeyOf(rows[k]) != KeyOf(rows[j])
    ensures PortsOf(rows)[KeyOf(rows[j])] == rows[j].exposedPort
  {
    UpdateAllLastWins(rows, KeyOf, ExposedOf, j);
  }

  lemma PortsOfAppend(rows: seq<Port>, o: Port)
    ensures PortsOf(rows + [o]) == PortsOf(rows)[KeyOf(o) := o.exposedPort]
  {
    UpdateAllAppend(rows, o, KeyOf, ExposedOf);
  }

  /** The port rows of a container, in store order. */
  function PortRows(db: Db, containerUuid: nat): (r: seq<Port>)
    ensures forall j :: 0 <= j < |r| ==> r[j] in db.ports && r[j].containerId == containerUuid
    ensures forall j :: 0 <= j < |db.ports| && db.ports[j].containerId == containerUuid ==> db.ports[j] in r
  {
    Filter(db.ports, (o: Port) => o.containerId == containerUuid)
  }

  /** `get_container_ports()`: the port map of the container's rows. */
  function ContainerPorts(db: Db, containerUuid: nat): (m: map<string, int>)
    ensures forall j :: 0 <= j < |db.ports| && db.ports[j].containerId == containerUuid ==> KeyOf(db.ports[j]) in m
  {
    PortsOf(PortRows(db, containerUuid))
  }

  /** Folding the rows a filter keeps: a key is present exactly when a
      kept row has it. */
  lemma FilteredUpdateAllKeys<T>(rows: seq<T>, p: T -> bool, key: T -> string, value: T -> int, k: string)
    ensures k in UpdateAll(Filter(rows, p), key, value) <==> exists j :: 0 <= j < |rows| && p(rows[j]) && key(rows[j]) == k
  {
    var kept := Filter(rows, p);
    UpdateAllKeys(kept, key, value, k);
    if k in UpdateAll(kept, key, value) {
      var j :| 0 <= j < |kept| && key(kept[j]) == k;
      var i :| 0 <= i < |rows| && rows[i] == kept[j];
    }
    if exists j :: 0 <= j < |rows| && p(rows[j]) && key(rows[j]) == k {
      var j :| 0 <= j < |rows| && p(rows[j]) && key(rows[j]) == k;
      var i :| 0 <= i < |kept| && kept[i] == rows[j];
    }
  }

  /** The container's port map has a key exactly for each of its rows. */
  lemma ContainerPortsKeys(db: Db, containerUuid: nat, k: string)
    ensures k in ContainerPorts(db, containerUuid) <==>
              exists j :: 0 <= j < |db.ports| && db.ports[j].containerId == containerUuid && KeyOf(db.ports[j]) == k
  {
    FilteredUpdateAllKeys(db.ports, (o: Port) => o.containerId == containerUuid, KeyOf, ExposedOf, k);
  }

  // ---------------------------------------------------------------- add_port_mapping

  /** `add_port_mapping(...)` on the records: a new port row for the
      container. The Docker commit it runs when the container already has
      a Docker id is not modelled. */
  function AddPortMapping(db: Db, containerUuid: nat, containerPort: int, exposedPort: int, protocol: Protocol): (db': Db)
    ensures db'.ports == db.ports + [Port(db.nextId, containerUuid, containerPort, protocol, exposedPort)]
    ensures db' == db.(ports := db'.ports, nextId := db.nextId + 1)
  {
    db.(ports := db.ports + [Port(db.nextId, containerUuid, containerPort, protocol, exposedPort)], nextId := db.nextId + 1)
  }

  /** After a mapping is added, the container's port map sends its key to
      its exposed port and keeps every other entry. */
  lemma AddPortMappingShows(db: Db, containerUuid: nat, containerPort: int, exposedPort: int, protocol: Protocol)
    ensures var m := ContainerPorts(AddPortMapping(db, containerUuid, containerPort, exposedPort, protocol), containerUuid);
            m == ContainerPorts(db, containerUuid)[PortKey(containerPort, protocol) := exposedPort]
  {
    var o := Port(db.nextId, containerUuid, containerPort, protocol, exposedPort);
    FilterAppend(db.ports, o, (o: Port) => o.containerId == containerUuid);
    var rows := PortRows(db, containerUuid);
    assert PortRows(AddPortMapping(db, containerUuid, containerPort, exposedPort, protocol), containerUuid) == rows + [o];
    PortsOfAppend(rows, o);
  }

  /** Adding a mapping keeps the store invariant when the container exists. */
  lemma AddPortMappingKeepsValid(db: Db, containerUuid: nat, containerPort: int, exposedPort: int, protocol: Protocol)
    requires Valid(db) && ContainerExists(db, containerUuid)
    ensures Valid(AddPortMapping(db, containerUuid, containerPort, exposedPort, protocol))
  {
  }

  // ---------------------------------------------------------------- create

  /** The filter of the comprehension: a non-empty segment. */
  predicate NonEmpty(z: string) {
    z != ""
  }

  /** The non-empty `:`-segments of an image name. */
  function NameSegments(image: string): (r: seq<string>)
    ensures forall j :: 0 <= j < |r| ==> r[j] != "" && ':' !in r[j]
  {
    Filter(Split(image, ':'), NonEmpty)
  }

  /** The `container_name` `create` assigns: the first non-empty
      `:`-segment of the image, `_`, and the hex of the random bytes; None
      for the IndexError when the image has no non-empty segment. */
  function ContainerNameFor(image: string, token: seq<byte>): (r: Option<string>)
    ensures r.None? <==> forall j :: 0 <= j < |Split(image, ':')| ==> Split(image, ':')[j] == ""
    ensures r.Some? ==>
              var i := FirstIndex(Split(image, ':'), NonEmpty).value;
              r.value == Split(image, ':')[i] + "_" + Buf2Hex(token)
  {
    var segments := NameSegments(image);
    FilterHead(Split(image, ':'), NonEmpty);
    if segments == [] then None
    else
      assert NonEmpty(Split(image, ':')[FirstIndex(Split(image, ':'), NonEmpty).value]);
      Some(segments[0] + "_" + Buf2Hex(token))
  }

  /** For an image `base:version` with a non-empty base the name is
      `base_` and 32 lowercase hex digits when 16 random bytes are drawn. */
  lemma ContainerNameOfImage(base: string, version: string, token: seq<byte>)
    requires base != "" && ':' !in base
    ensures ContainerNameFor(base + ":" + version, token) == Some(base + "_" + Buf2Hex(token))
    ensures |token| == 16 ==> |ContainerNameFor(base + ":" + version, token).value| == |base| + 33
  {
    SplitFirst(base, ':', version);
    assert base + ":" + version == base + [':'] + version;
  }

  /** Different random bytes give different names. */
  lemma ContainerNamesDiffer(image: string, token1: seq<byte>, token2: seq<byte>)
    requires token1 != token2 && |token1| == |token2|
    requires ContainerNameFor(image, token1).Some?
    ensures ContainerNameFor(image, token1) != ContainerNameFor(image, token2)
  {
    if ContainerNameFor(image, token1) == ContainerNameFor(image, token2) {
      var seg := Split(image, ':')[FirstIndex(Split(image, ':'), NonEmpty).value];
      var h1 := Buf2Hex(token1);
      var h2 := Buf2Hex(token2);
      assert seg + "_" + h1 == seg + "_" + h2;
      assert h1 == (seg + "_" + h1)[|seg| + 1..];
      assert h2 == (seg + "_" + h2)[|seg| + 1..];
      Buf2HexInjective(token1, token2);
    }
  }

  /** The Docker options `create` builds: the caller's options, overridden
      by the fixed ones. */
  function FixedRunKwargs(name: string, ports: map<string, int>): (m: map<string, Json>)
    ensures m.Keys == {"name", "detach", "stdin_open", "tty", "network_mode", "ports"}
  {
    map["name" := JStr(name), "detach" := JBool(true), "stdin_open" := JBool(true), "tty" := JBool(true),
        "network_mode" := JStr("bridge"), "ports" := JObj(map k | k in ports :: JNum(ports[k]))]
  }

  /** `{**(run_kwargs or {}), 'name': ..., 'detach': True, ...}`. */
  function RunKwargs(user: map<string, Json>, name: string, ports: map<string, int>): (m: map<string, Json>)
    ensures m.Keys == user.Keys + FixedRunKwargs(name, ports).Keys
    ensures forall k :: k in FixedRunKwargs(name, ports) ==> m[k] == FixedRunKwargs(name, ports)[k]
    ensures forall k :: k in user && k !in FixedRunKwargs(name, ports) ==> m[k] == user[k]
  {
    user + FixedRunKwargs(name, ports)
  }

  /** The row fields `create` sets: the start image, the generated name and
      the id of the Docker container. */
  function Created(c: Container, image: string, name: string, dockerId: string): (c': Container)
    ensures c'.startImageName == Some(image) && c'.containerName == Some(name) && c'.containerId == Some(dockerId)
    ensures c' == c.(startImageName := c'.startImageName, containerName := c'.containerName, containerId := c'.containerId)
  {
    c.(startImageName := Some(image), containerName := Some(name), containerId := Some(dockerId))
  }

  // ---------------------------------------------------------------- commit

  /** Where `commit` writes the new image: a repository and a numeric tag. */
  datatype CommitPlan = CommitPlan(repository: Option<string>, tag: int)

  /** The repository and tag `commit` chooses from the first tag of the
      running image (`image:tag`). The first commit of a container started
      from its start image is tag 0 under the container's name; later ones
      add one to the current tag. None for the IndexError of a tag without
      `:` and the ValueError of a non-numeric current tag. */
  function CommitTarget(startImage: Option<string>, currentImage: string, containerName: Option<string>): (r: Option<CommitPlan>)
    ensures |Split(currentImage, ':')| < 2 ==> r.None?
    ensures |Split(currentImage, ':')| >= 2 && startImage == Some(currentImage) ==> r == Some(CommitPlan(containerName, 0))
    ensures |Split(currentImage, ':')| >= 2 && startImage != Some(currentImage) ==>
              r == (match PyInt(Split(currentImage, ':')[1])
                    case None => None
                    case Some(n) => Some(CommitPlan(Some(Split(currentImage, ':')[0]), n + 1)))
  {
    var parts := Split(currentImage, ':');
    if |parts| < 2 then None
    else if startImage == Some(currentImage) then Some(CommitPlan(containerName, 0))
    else
      match PyInt(parts[1])
      case None => None
      case Some(n) => Some(CommitPlan(Some(parts[0]), n + 1))
  }

  /** Commits are numbered in sequence: once the running image is the
      container's own image with tag `k`, the next commit writes tag `k + 1`
      to the same repository. */
  lemma CommitNumbering(startImage: Option<string>, name: string, k: nat)
    requires ':' !in name
    requires startImage != Some(name + ":" + NatToString(k))
    ensures CommitTarget(startImage, name + ":" + NatToString(k), Some(name)) == Some(CommitPlan(Some(name), k + 1))
  {
    var d := NatToString(k);
    assert name + ":" + d == name + [':'] + d;
    SplitFirst(name, ':', d);
    assert forall j :: 0 <= j < |d| ==> IsDigit(d[j]);
    assert Split(d, ':') == [d];
    PyIntOfNatToString(k);
  }

  /** The first commit of a container still running its start image. */
  lemma FirstCommit(image: string, name: Option<string>)
    requires ':' in image
    ensures CommitTarget(Some(image), image, name) == Some(CommitPlan(name, 0))
  {
    var i := IndexOf(image, ':');
    assert image == image[..i] + [':'] + image[i + 1..];
    SplitFirst(image[..i], ':', image[i + 1..]);
  }

  // ---------------------------------------------------------------- destroy

  /** The port rows that do not belong to the container. */
  function OtherPorts(ports: seq<Port>, containerUuid: nat): (r: seq<Port>)
    ensures forall j :: 0 <= j < |r| ==> r[j] in ports && r[j].containerId != containerUuid
    ensures forall j :: 0 <= j < |ports| && ports[j].containerId != containerUuid ==> ports[j] in r
  {
    Filter(ports, (o: Port) => o.containerId != containerUuid)
  }

  /** The record deletions of `destroy` on the container in row `i`: its
      port rows and the row itself. */
  function Destroy(db: Db, i: nat): (db': Db)
    requires i < |db.containers|
    ensures forall j :: 0 <= j < |db'.ports| ==> db'.ports[j] in db.ports && db'.ports[j].containerId != db.containers[i].uuid
    ensures forall j :: 0 <= j < |db.ports| && db.ports[j].containerId != db.containers[i].uuid ==> db.ports[j] in db'.ports
    ensures db'.containers == db.containers[..i] + db.containers[i + 1..]
    ensures db' == db.(ports := db'.ports, containers := db'.containers)
    ensures ContainerPorts(db', db.containers[i].uuid) == map[]
  {
    db.(ports := OtherPorts(db.ports, db.containers[i].uuid),
        containers := db.containers[..i] + db.containers[i + 1..])
  }

  /** Removing row `i` of a table with distinct keys keeps them distinct. */
  lemma RemoveKeepsKeysDistinct(cs: seq<Container>, i: nat)
    requires i < |cs|
    requires forall a, b :: 0 <= a < b < |cs| ==> cs[a].uuid != cs[b].uuid
    ensures var rest := cs[..i] + cs[i + 1..];
            forall a, b :: 0 <= a < b < |rest| ==> rest[a].uuid != rest[b].uuid
  {
    var rest := cs[..i] + cs[i + 1..];
    forall a, b | 0 <= a < b < |rest| ensures rest[a].uuid != rest[b].uuid {
      assert rest[a] == cs[if a < i then a else a + 1];
      assert rest[b] == cs[if b < i then b else b + 1];
    }
  }

  /** Destroying a container keeps the store invariant. */
  lemma DestroyKeepsValid(db: Db, i: nat)
    requires Valid(db) && i < |db.containers|
    ensures Valid(Destroy(db, i))
  {
    var db' := Destroy(db, i);
    var cs := db'.containers;
    RemoveKeepsKeysDistinct(db.containers, i);
    assert KeysBelow(db') by {
      assert forall c :: c in cs ==> c in db.containers;
      assert forall o :: o in db'.ports ==> o in db.ports;
    }
    forall o | o in db'.ports ensures ContainerExists(db', o.containerId) {
      var j :| 0 <= j < |db'.ports| && db'.ports[j] == o;
      DestroyKeepsPortTarget(db, i, o.containerId);
    }
  }

  lemma DestroyKeepsPortTarget(db: Db, i: nat, id: nat)
    requires i < |db.containers| && ContainerExists(db, id) && id != db.containers[i].uuid
    ensures ContainerExists(Destroy(db, i), id)
  {
    var cs := Destroy(db, i).containers;
    var k :| 0 <= k < |db.containers| && db.containers[k].uuid == id;
    assert cs[if k < i then k else k - 1] == db.containers[k];
  }

  /** `check_existance(db_commit)`: a live Docker container keeps its row;
      a missing one gives None, and its records are deleted only when
      `db_commit` is set. */
  function CheckExistance(db: Db, i: nat, alive: bool, dbCommit: bool): (r: (Option<nat>, Db))
    requires i < |db.containers|
    ensures r.0.Some? <==> alive
    ensures r.0.Some? ==> r.0.value == db.containers[i].uuid
    ensures r.1 == (if !alive && dbCommit then Destroy(db, i) else db)
  {
    if alive then (Some(db.containers[i].uuid), db)
    else if dbCommit then (None, Destroy(db, i))
    else (None, db)
  }

  // ---------------------------------------------------------------- to_dict

  /** `ContainerPort.to_dict()`. */
  datatype PortView = PortView(protocol: string, containerPort: int, exposedPort: int)

  function PortToDict(o: Port): (v: PortView)
    ensures ProtocolNamed(v.protocol) == Some(o.protocol)
    ensures v.containerPort == o.containerPort && v.exposedPort == o.exposedPort
  {
    ProtocolNamedOfName(o.protocol);
    PortView(ProtocolName(o.protocol), o.containerPort, o.exposedPort)
  }

  function PortViews(rows: seq<Port>): (r: seq<PortView>)
    ensures |r| == |rows|
    ensures forall j :: 0 <= j < |rows| ==> r[j] == PortToDict(rows[j])
  {
    if rows == [] then [] else [PortToDict(rows[0])] + PortViews(rows[1..])
  }

  /** `Container.to_dict()`: the project view (without containers) when
      the project row exists, the port views when there are any. */
  datatype ContainerView = ContainerView(
    uuid: nat, name: string, startImageName: Option<string>, containerId: Option<string>,
    containerName: Option<string>, createdById: nat,
    project: Option<ProjectView>, ports: Option<seq<PortView>>)

  /** None when rendering raises: a container without creator
      (`None.to_dict()`) or a project whose own rendering raises. */
  function ContainerToDict(db: Db, c: Container): (r: Option<ContainerView>)
    ensures r.Some? <==> ContainerRenders(db, c)
    ensures r.Some? ==> r.value.uuid == c.uuid && r.value.name == c.name && r.value.containerName == c.containerName
    ensures r.Some? ==> (r.value.project.Some? <==> ProjectRowOf(db, c).Some?)
    ensures r.Some? ==> (r.value.ports.Some? <==> exists j :: 0 <= j < |db.ports| && db.ports[j].containerId == c.uuid)
    ensures r.Some? && r.value.ports.Some? ==> r.value.ports.value == PortViews(PortRows(db, c.uuid))
  {
    if c.createdById.None? then None
    else
      var project := match ProjectRowOf(db, c)
                     case None => Some(None)
                     case Some(p) => match ProjectToDict(db, p, false)
                                     case None => None
                                     case Some(v) => Some(Some(v));
      if project.None? then None
      else
        var rows := PortRows(db, c.uuid);
        assert rows != [] ==> rows[0] in db.ports;
        Some(ContainerView(c.uuid, c.name, c.startImageName, c.containerId, c.containerName, c.createdById.value,
                           project.value, if rows != [] then Some(PortViews(rows)) else None))
  }
}
