/** `ProjectContainerCreationRoute.post`
    (backend/app/api/dodoco/projects/project_create_container.py): the
    admission checks for a new container, the image-name normalisation,
    and the records the route adds: the container row, one port row per
    protocol of each whitelisted port spec, and the fields `create` sets. */
module CreateContainerRoute {
  import opened Wrappers
  import opened Text
  import opened Records
  import opened BackendText
  import opened ProjectModel
  import opened ContainerModel

  /** The body of POST /projects/<id>/containers. */
  datatype NewContainerBody = NewContainerBody(name: string, imageName: string, description: Option<string>)

  /** The images containers may start from, with the port specs each
      exposes. */
  const Whitelist: map<string, seq<string>> := map["ubuntu" := ["22/all"]]

  /** The project the route works on: the first open project with the id. */
  function TargetProjectIndex(db: Db, id: nat): (r: Option<nat>)
    ensures r.Some? ==> r.value < |db.projects| && db.projects[r.value].uuid == id && Open(db.projects[r.value])
    ensures r.None? <==> forall j :: 0 <= j < |db.projects| ==> !(Open(db.projects[j]) && db.projects[j].uuid == id)
  {
    FirstIndex(db.projects, (p: Project) => Open(p) && p.uuid == id)
  }

  /** `len(project.containers)`. */
  function ContainerCount(db: Db, projectUuid: nat): (n: nat)
    ensures n <= |db.containers|
    ensures n == 0 <==> forall j :: 0 <= j < |db.containers| ==> db.containers[j].projectId != projectUuid
  {
    var rows := Filter(db.containers, (c: Container) => c.projectId == projectUuid);
    FilterHead(db.containers, (c: Container) => c.projectId == projectUuid);
    |rows|
  }

  // ---------------------------------------------------------------- image name

  /** `image.split(':')`: the base is the first segment, the version the
      second or `latest` when there is none. */
  function NormaliseImage(image: string): (r: (string, string))
    ensures ':' !in r.0 && ':' !in r.1
    ensures ':' !in image ==> r == (image, "latest")
  {
    var parts := Split(image, ':');
    (parts[0], if 1 < |parts| then parts[1] else "latest")
  }

  /** The base is the text before the first `:` and the version the text
      up to the next one. */
  lemma NormaliseImageOf(base: string, version: string, rest: string)
    requires ':' !in base && ':' !in version
    ensures NormaliseImage(base + ":" + version) == (base, version)
    ensures NormaliseImage(base + ":" + version + ":" + rest) == (base, version)
  {
    assert base + ":" + version == base + [':'] + version;
    SplitFirst(base, ':', version);
    assert base + ":" + version + ":" + rest == base + [':'] + (version + [':'] + rest);
    SplitFirst(base, ':', version + [':'] + rest);
    SplitFirst(version, ':', rest);
  }

  /** The image the container starts from: `base:version`. */
  function ImageName(image: string): (r: string)
    ensures ':' in r
  {
    var (base, version) := NormaliseImage(image);
    assert (base + ":" + version)[|base|] == ':';
    base + ":" + version
  }

  // ---------------------------------------------------------------- port specs

  /** A parsed port spec: the container port and the protocols it is
      exposed with. */
  datatype PortSpec = PortSpec(containerPort: int, protocols: seq<Protocol>)

  /** The protocol names a spec's second half stands for: `all` is tcp
      and udp. */
  function ProtocolNames(s: string): (r: seq<string>)
    ensures s == "all" ==> r == ["tcp", "udp"]
    ensures s != "all" ==> r == [s]
  {
    if s == "all" then ["tcp", "udp"] else [s]
  }

  /** `DockerPortProtocol[name]` for each name; None for a KeyError. */
  function ProtocolsNamed(names: seq<string>): (r: Option<seq<Protocol>>)
    ensures r.Some? ==> |r.value| == |names| && forall j :: 0 <= j < |names| ==> ProtocolName(r.value[j]) == names[j]
    ensures r.None? <==> exists j :: 0 <= j < |names| && ProtocolNamed(names[j]).None?
  {
    if names == [] then Some([])
    else
      var head := ProtocolNamed(names[0]);
      var tail := ProtocolsNamed(names[1..]);
      assert forall j :: 0 <= j < |names[1..]| ==> names[1..][j] == names[j + 1];
      if head.Some? && tail.Some? then Some([head.value] + tail.value) else None
  }

  /** `container_port_num, target_port_protocol = spec.split('/')` then
      `int(...)` and the protocol names; None for the ValueError of a spec
      that is not two parts or not a number, or the KeyError of an unknown
      protocol. */
  function ParsePortSpec(spec: string): (r: Option<PortSpec>)
    ensures r.Some? <==> |Split(spec, '/')| == 2 && PyInt(Split(spec, '/')[0]).Some?
                         && ProtocolsNamed(ProtocolNames(Split(spec, '/')[1])).Some?
    ensures r.Some? ==> |Split(spec, '/')| == 2 && PyInt(Split(spec, '/')[0]) == Some(r.value.containerPort)
    ensures r.Some? ==> ProtocolsNamed(ProtocolNames(Split(spec, '/')[1])) == Some(r.value.protocols)
    ensures |Split(spec, '/')| != 2 ==> r.None?
  {
    var parts := Split(spec, '/');
    if |parts| != 2 then None
    else
      var port := PyInt(parts[0]);
      var protocols := ProtocolsNamed(ProtocolNames(parts[1]));
      if port.Some? && protocols.Some? then Some(PortSpec(port.value, protocols.value)) else None
  }

  function ParsePortSpecs(specs: seq<string>): (r: Option<seq<PortSpec>>)
    ensures r.Some? ==> |r.value| == |specs| && forall j :: 0 <= j < |specs| ==> ParsePortSpec(specs[j]) == Some(r.value[j])
  {
    if specs == [] then Some([])
    else
      var head := ParsePortSpec(specs[0]);
      if head.None? then None
      else
        var tail := ParsePortSpecs(specs[1..]);
        if tail.None? then None
        else
          assert forall j :: 1 <= j < |specs| ==> specs[j] == specs[1..][j - 1];
          Some([head.value] + tail.value)
  }

  /** The names of some protocols look up to those protocols. */
  lemma ProtocolsNamedOfNames(ps: seq<Protocol>)
    ensures ProtocolsNamed(seq(|ps|, j requires 0 <= j < |ps| => ProtocolName(ps[j]))) == Some(ps)
  {
    var names := seq(|ps|, j requires 0 <= j < |ps| => ProtocolName(ps[j]));
    forall j | 0 <= j < |names| ensures ProtocolNamed(names[j]).Some? {
      ProtocolNamedOfName(ps[j]);
    }
    var r := ProtocolsNamed(names).value;
    forall j | 0 <= j < |ps| ensures r[j] == ps[j] {
      ProtocolNamedOfName(ps[j]);
      ProtocolNamedOfName(r[j]);
    }
    assert r == ps;
  }

  /** A spec written as a port number, `/` and a name parses to that port
      and the protocols the name stands for, and fails exactly when the
      name is not `all` or a protocol's name. */
  lemma ParsePortSpecOfText(port: nat, name: string)
    requires '/' !in name
    ensures var protocols := ProtocolsNamed(ProtocolNames(name));
            ParsePortSpec(NatToString(port) + "/" + name)
              == if protocols.Some? then Some(PortSpec(port, protocols.value)) else None
  {
    var digits := NatToString(port);
    assert '/' !in digits;
    SplitFirst(digits, '/', name);
    assert Split(digits + "/" + name, '/') == [digits, name];
    PyIntOfNatToString(port);
  }

  /** `22/all`, an instance of `ParsePortSpecOfText`. */
  lemma SshSpecParses()
    ensures ParsePortSpec("22/all") == Some(PortSpec(22, [Tcp, Udp]))
  {
    assert NatToString(22) == "22";
    assert "22/all" == NatToString(22) + "/" + "all";
    ParsePortSpecOfText(22, "all");
    ProtocolsNamedOfNames([Tcp, Udp]);
    assert seq(2, j requires 0 <= j < 2 => ProtocolName([Tcp, Udp][j])) == ProtocolNames("all");
  }

  /** The whitelisted image's specs parse to port 22 over tcp and udp. */
  lemma SshPortSpec()
    ensures ParsePortSpecs(Whitelist["ubuntu"]) == Some([PortSpec(22, [Tcp, Udp])])
  {
    var specs := Whitelist["ubuntu"];
    assert specs == ["22/all"];
    SshSpecParses();
    assert specs[1..] == [];
    var head := ParsePortSpec(specs[0]);
    var tail := ParsePortSpecs(specs[1..]);
    assert head == Some(PortSpec(22, [Tcp, Udp]));
    assert tail == Some([]);
    assert [PortSpec(22, [Tcp, Udp])] + [] == [PortSpec(22, [Tcp, Udp])];
  }

  // ---------------------------------------------------------------- port rows

  /** The inner loop: one `add_port_mapping` per protocol of a spec, all
      with the same exposed port. */
  function MapProtocols(db: Db, containerUuid: nat, containerPort: int, exposedPort: int, protocols: seq<Protocol>): (db': Db)
    ensures db' == db.(ports := db'.ports, nextId := db.nextId + |protocols|)
    ensures |db'.ports| == |db.ports| + |protocols| && db'.ports[..|db.ports|] == db.ports
    ensures forall j :: 0 <= j < |protocols| ==>
              db'.ports[|db.ports| + j] == Port(db.nextId + j, containerUuid, containerPort, protocols[j], exposedPort)
    decreases |protocols|
  {
    if protocols == [] then db
    else
      var db1 := AddPortMapping(db, containerUuid, containerPort, exposedPort, protocols[0]);
      var r := MapProtocols(db1, containerUuid, containerPort, exposedPort, protocols[1..]);
      assert forall j :: 1 <= j < |protocols| ==> protocols[1..][j - 1] == protocols[j];
      assert r.ports[..|db1.ports|] == db1.ports;
      assert r.ports[..|db.ports|] == db1.ports[..|db.ports|];
      r
  }

  /** The outer loop: the specs in order, the `k`-th drawing the `k`-th
      free port. */
  function MapPorts(db: Db, containerUuid: nat, specs: seq<PortSpec>, exposed: nat -> int, k: nat): (db': Db)
    ensures db' == db.(ports := db'.ports, nextId := db'.nextId)
    ensures |db'.ports| >= |db.ports| && db'.ports[..|db.ports|] == db.ports
    decreases |specs|
  {
    if specs == [] then db
    else
      var db1 := MapProtocols(db, containerUuid, specs[0].containerPort, exposed(k), specs[0].protocols);
      var r := MapPorts(db1, containerUuid, specs[1..], exposed, k + 1);
      assert r.ports[..|db.ports|] == r.ports[..|db1.ports|][..|db.ports|];
      r
  }

  // ---------------------------------------------------------------- route

  /** The admission checks, in order: an open project with the id, its
      approval, the caller's right (admin or member), the container limit,
      and the image whitelist. */
  predicate Approved(p: Project) {
    p.approved == Some(true)
  }

  predicate MayCreate(db: Db, token: AccessToken, p: Project) {
    token.admin || IsMember(db, token.user, p.uuid)
  }

  /** The work after the checks: the container row, then its port rows
      for the parsed port specs of the image, then the fields `create`
      sets on it for the normalised `image`. A spec that does not parse,
      an image without a name segment or a failing Docker call is a server
      error, with the rows committed so far left in place. `docker` is the
      id of the container Docker creates and starts, None when the Docker
      client raises. */
  function Launch(db: Db, projectUuid: nat, user: nat, body: NewContainerBody, image: string, parsed: Option<seq<PortSpec>>,
                  exposed: nat -> int, nameToken: seq<byte>, docker: Option<string>): (r: (Case, Db))
    ensures r.0 in {ResourceCreated, ServerError}
    ensures r.0 == ResourceCreated ==> parsed.Some? && docker.Some?
  {
    var c := Container(db.nextId, body.name, body.description, None, None, None, projectUuid, Some(user));
    var db1 := db.(containers := db.containers + [c], nextId := db.nextId + 1);
    match parsed
    case None => (ServerError, db1)
    case Some(specs) => Start(MapPorts(db1, c.uuid, specs, exposed, 0), |db.containers|, image, nameToken, docker)
  }

  /** `create` with `start_after_create`: the generated name, then the
      Docker container; on success the image, the name and the Docker id
      are recorded on the `k`-th container row and nothing else changes;
      on an IndexError of the name or a Docker error the store is left as
      it was. */
  function Start(db: Db, k: nat, image: string, nameToken: seq<byte>, docker: Option<string>): (r: (Case, Db))
    requires k < |db.containers|
    ensures r.0 in {ResourceCreated, ServerError}
  {
    match ContainerNameFor(image, nameToken)
    case None => (ServerError, db)
    case Some(name) =>
      match docker
      case None => (ServerError, db)
      case Some(id) => (ResourceCreated, db.(containers := db.containers[k := Created(db.containers[k], image, name, id)]))
  }

  /** What `create` leaves: created exactly when the name is found and
      Docker succeeds, and then only the `k`-th row changes, gaining the
      image, the name and the Docker id; otherwise the store is as it was. */
  lemma StartEffect(db: Db, k: nat, image: string, nameToken: seq<byte>, docker: Option<string>)
    requires k < |db.containers|
    ensures var r := Start(db, k, image, nameToken, docker);
            && (r.0 == ResourceCreated <==> ContainerNameFor(image, nameToken).Some? && docker.Some?)
            && (r.0 == ServerError ==> r.1 == db)
            && (r.0 == ResourceCreated ==>
                  && r.1 == db.(containers := r.1.containers)
                  && |r.1.containers| == |db.containers|
                  && (forall j :: 0 <= j < |db.containers| && j != k ==> r.1.containers[j] == db.containers[j])
                  && r.1.containers[k].startImageName == Some(image)
                  && r.1.containers[k].containerName == ContainerNameFor(image, nameToken)
                  && r.1.containers[k].containerId == docker
                  && r.1.containers[k] == db.containers[k].(startImageName := Some(image),
                       containerName := r.1.containers[k].containerName, containerId := docker))
  {
  }

  /** The records a launch leaves: the caller's container in the project,
      started from `base:version` under the name `base_<hex>`, with port 22
      mapped for tcp and then udp to the free port drawn for the spec. */
  lemma LaunchRecords(db: Db, projectUuid: nat, user: nat, body: NewContainerBody,
                      exposed: nat -> int, nameToken: seq<byte>, dockerId: string)
    requires NormaliseImage(body.imageName).0 in Whitelist
    ensures var r := Launch(db, projectUuid, user, body, ImageName(body.imageName), ParsePortSpecs(Whitelist["ubuntu"]), exposed, nameToken, Some(dockerId));
            var n := db.nextId;
            var (base, version) := NormaliseImage(body.imageName);
            && r.0 == ResourceCreated
            && r.1.containers == db.containers + [Container(n, body.name, body.description,
                 Some(base + ":" + version), Some(dockerId), Some(base + "_" + Buf2Hex(nameToken)), projectUuid, Some(user))]
            && r.1.ports == db.ports + [Port(n + 1, n, 22, Tcp, exposed(0)), Port(n + 2, n, 22, Udp, exposed(0))]
            && r.1.nextId == n + 3
            && r.1.tags == db.tags && r.1.projects == db.projects && r.1.members == db.members
  {
    var (base, version) := NormaliseImage(body.imageName);
    assert base == "ubuntu";
    var image := ImageName(body.imageName);
    SshPortSpec();
    ContainerNameOfImage(base, version, nameToken);
    var name := base + "_" + Buf2Hex(nameToken);
    LaunchSteps(db, projectUuid, user, body, ImageName(body.imageName), ParsePortSpecs(Whitelist["ubuntu"]), exposed, nameToken, Some(dockerId), name);
  }

  /** A launch whose specs are the whitelisted one and whose name is
      found adds the container and the two port rows; the created fields
      are recorded when Docker succeeds, and the bare rows stay behind with
      a server error when it fails. */
  lemma LaunchSteps(db: Db, projectUuid: nat, user: nat, body: NewContainerBody, image: string, parsed: Option<seq<PortSpec>>,
                    exposed: nat -> int, nameToken: seq<byte>, docker: Option<string>, name: string)
    requires parsed == Some([PortSpec(22, [Tcp, Udp])])
    requires ContainerNameFor(image, nameToken) == Some(name)
    ensures var r := Launch(db, projectUuid, user, body, image, parsed, exposed, nameToken, docker);
            var n := db.nextId;
            && r.0 == (if docker.Some? then ResourceCreated else ServerError)
            && r.1.containers == db.containers + [Container(n, body.name, body.description,
                 if docker.Some? then Some(image) else None, docker,
                 if docker.Some? then Some(name) else None, projectUuid, Some(user))]
            && r.1.ports == db.ports + [Port(n + 1, n, 22, Tcp, exposed(0)), Port(n + 2, n, 22, Udp, exposed(0))]
            && r.1.nextId == n + 3
            && r.1.tags == db.tags && r.1.projects == db.projects && r.1.members == db.members
  {
    var n := db.nextId;
    var c := Container(n, body.name, body.description, None, None, None, projectUuid, Some(user));
    var k := |db.containers|;
    var db2 := db.(containers := db.containers + [c], ports := db.ports + [Port(n + 1, n, 22, Tcp, exposed(0)), Port(n + 2, n, 22, Udp, exposed(0))], nextId := n + 3);
    LaunchMapped(db, projectUuid, user, body, image, exposed, nameToken, docker);
    if docker.Some? {
      var c' := Created(c, image, name, docker.value);
      assert db2.containers[k := c'] == db.containers + [c'] by {
        assert db2.containers[k] == c;
      }
      StartNamed(db2, k, image, nameToken, docker.value, name);
    }
  }

  /** The rows a launch of the whitelisted spec commits before `create`. */
  lemma LaunchMapped(db: Db, projectUuid: nat, user: nat, body: NewContainerBody, image: string,
                     exposed: nat -> int, nameToken: seq<byte>, docker: Option<string>)
    ensures var n := db.nextId;
            var c := Container(n, body.name, body.description, None, None, None, projectUuid, Some(user));
            Launch(db, projectUuid, user, body, image, Some([PortSpec(22, [Tcp, Udp])]), exposed, nameToken, docker)
            == Start(db.(containers := db.containers + [c],
                         ports := db.ports + [Port(n + 1, n, 22, Tcp, exposed(0)), Port(n + 2, n, 22, Udp, exposed(0))],
                         nextId := n + 3), |db.containers|, image, nameToken, docker)
  {
    var n := db.nextId;
    var c := Container(n, body.name, body.description, None, None, None, projectUuid, Some(user));
    var db1 := db.(containers := db.containers + [c], nextId := n + 1);
    var db2 := db.(containers := db.containers + [c],
                   ports := db.ports + [Port(n + 1, n, 22, Tcp, exposed(0)), Port(n + 2, n, 22, Udp, exposed(0))],
                   nextId := n + 3);
    var mapped := MapPorts(db1, n, [PortSpec(22, [Tcp, Udp])], exposed, 0);
    assert mapped == db2 by {
      SshPorts(db1, n, exposed);
      assert mapped == db1.(ports := mapped.ports, nextId := n + 3);
    }
    calc {
      Launch(db, projectUuid, user, body, image, Some([PortSpec(22, [Tcp, Udp])]), exposed, nameToken, docker);
      { LaunchParsed(db, projectUuid, user, body, image, [PortSpec(22, [Tcp, Udp])], exposed, nameToken, docker); }
      Start(mapped, |db.containers|, image, nameToken, docker);
    }
  }

  /** A launch whose specs parse maps them on the new row, then starts it. */
  lemma LaunchParsed(db: Db, projectUuid: nat, user: nat, body: NewContainerBody, image: string, specs: seq<PortSpec>,
                     exposed: nat -> int, nameToken: seq<byte>, docker: Option<string>)
    ensures var c := Container(db.nextId, body.name, body.description, None, None, None, projectUuid, Some(user));
            var db1 := db.(containers := db.containers + [c], nextId := db.nextId + 1);
            Launch(db, projectUuid, user, body, image, Some(specs), exposed, nameToken, docker)
            == Start(MapPorts(db1, db.nextId, specs, exposed, 0), |db.containers|, image, nameToken, docker)
  {
  }

  lemma StartNamed(db: Db, k: nat, image: string, nameToken: seq<byte>, dockerId: string, name: string)
    requires k < |db.containers|
    requires ContainerNameFor(image, nameToken) == Some(name)
    ensures Start(db, k, image, nameToken, Some(dockerId))
            == (ResourceCreated, db.(containers := db.containers[k := Created(db.containers[k], image, name, dockerId)]))
  {
  }

  /** The rows the whitelisted spec adds: tcp, then udp. */
  lemma SshPorts(db: Db, containerUuid: nat, exposed: nat -> int)
    ensures var db' := MapPorts(db, containerUuid, [PortSpec(22, [Tcp, Udp])], exposed, 0);
            && db'.ports == db.ports + [Port(db.nextId, containerUuid, 22, Tcp, exposed(0)),
                                        Port(db.nextId + 1, containerUuid, 22, Udp, exposed(0))]
            && db' == db.(ports := db'.ports, nextId := db.nextId + 2)
  {
    var dbp := MapProtocols(db, containerUuid, 22, exposed(0), [Tcp, Udp]);
    assert [PortSpec(22, [Tcp, Udp])][1..] == [];
    assert MapPorts(db, containerUuid, [PortSpec(22, [Tcp, Udp])], exposed, 0) == MapPorts(dbp, containerUuid, [], exposed, 1);
    assert dbp.ports == db.ports + [Port(db.nextId, containerUuid, 22, Tcp, exposed(0)),
                                    Port(db.nextId + 1, containerUuid, 22, Udp, exposed(0))];
  }

  /** The port map of a launched container: `22/tcp` and `22/udp`, both to
      the free port drawn for the spec. */
  lemma LaunchPortMap(db: Db, projectUuid: nat, user: nat, body: NewContainerBody,
                      exposed: nat -> int, nameToken: seq<byte>, dockerId: string)
    requires Valid(db)
    requires NormaliseImage(body.imageName).0 in Whitelist
    ensures ContainerPorts(Launch(db, projectUuid, user, body, ImageName(body.imageName), ParsePortSpecs(Whitelist["ubuntu"]), exposed, nameToken, Some(dockerId)).1, db.nextId)
            == map[PortKey(22, Tcp) := exposed(0), PortKey(22, Udp) := exposed(0)]
  {
    LaunchRecords(db, projectUuid, user, body, exposed, nameToken, dockerId);
    SshPortMap(db, Launch(db, projectUuid, user, body, ImageName(body.imageName), ParsePortSpecs(Whitelist["ubuntu"]), exposed, nameToken, Some(dockerId)).1, exposed(0));
  }

  /** The port map of a fresh container given the two rows of the
      whitelisted spec. */
  lemma SshPortMap(db: Db, db': Db, e: int)
    requires Valid(db)
    requires db'.ports == db.ports + [Port(db.nextId + 1, db.nextId, 22, Tcp, e), Port(db.nextId + 2, db.nextId, 22, Udp, e)]
    ensures ContainerPorts(db', db.nextId) == map[PortKey(22, Tcp) := e, PortKey(22, Udp) := e]
  {
    var n := db.nextId;
    var db1 := AddPortMapping(db.(nextId := n + 1), n, 22, e, Tcp);
    var db2 := AddPortMapping(db1, n, 22, e, Udp);
    assert db'.ports == db2.ports;
    assert PortRows(db', n) == PortRows(db2, n);
    NoPortsOfFreshId(db);
    AddPortMappingShows(db.(nextId := n + 1), n, 22, e, Tcp);
    AddPortMappingShows(db1, n, 22, e, Udp);
  }

  /** No port row names a container key that is not yet taken. */
  lemma NoPortsOfFreshId(db: Db)
    requires Valid(db)
    ensures ContainerPorts(db.(nextId := db.nextId + 1), db.nextId) == map[]
  {
    var db1 := db.(nextId := db.nextId + 1);
    forall j | 0 <= j < |db.ports| ensures db.ports[j].containerId != db.nextId {
      assert db.ports[j] in db.ports;
      var i :| 0 <= i < |db.containers| && db.containers[i].uuid == db.ports[j].containerId;
      assert db.containers[i] in db.containers;
    }
    forall k ensures k !in ContainerPorts(db1, db.nextId) {
      ContainerPortsKeys(db1, db.nextId, k);
    }
    assert ContainerPorts(db1, db.nextId).Keys == {};
  }

  /** POST /projects/<id>/containers. `exposed(k)` is the free port drawn
      for the `k`-th spec, `nameToken` the 16 random bytes of the name and
      `docker` the id of the Docker container `create` makes, None when the
      Docker client raises. */
  function CreateContainer(db: Db, token: AccessToken, projectId: nat, body: NewContainerBody,
                           exposed: nat -> int, nameToken: seq<byte>, docker: Option<string>): (r: (Case, Db))
    ensures r.0 == ResourceNotFound(["project"]) <==> TargetProjectIndex(db, projectId).None?
    ensures r.0 == ResourceForbidden <==>
              (TargetProjectIndex(db, projectId).Some? &&
               var p := db.projects[TargetProjectIndex(db, projectId).value];
               !Approved(p) || !MayCreate(db, token, p))
    ensures r.0 == ResourceConflict(["CONTAINER_COUNT_LIMIT"]) <==>
              (TargetProjectIndex(db, projectId).Some? &&
               var p := db.projects[TargetProjectIndex(db, projectId).value];
               Approved(p) && MayCreate(db, token, p) && ContainerCount(db, p.uuid) >= p.maxContainerLimit)
    ensures r.0 == BodyBadSemantics("image") <==>
              (TargetProjectIndex(db, projectId).Some? &&
               var p := db.projects[TargetProjectIndex(db, projectId).value];
               Approved(p) && MayCreate(db, token, p) && ContainerCount(db, p.uuid) < p.maxContainerLimit
               && NormaliseImage(body.imageName).0 !in Whitelist)
    ensures r.0 !in {ResourceCreated, ServerError} ==> r.1 == db
    ensures r.0 in {ResourceCreated, ServerError} ==>
              NormaliseImage(body.imageName).0 in Whitelist &&
              r == Launch(db, projectId, token.user, body, ImageName(body.imageName), ParsePortSpecs(Whitelist["ubuntu"]), exposed, nameToken, docker)
  {
    match TargetProjectIndex(db, projectId)
    case None => (ResourceNotFound(["project"]), db)
    case Some(i) =>
      var p := db.projects[i];
      if !Approved(p) then (ResourceForbidden, db)
      else if !token.admin && !IsMember(db, token.user, p.uuid) then (ResourceForbidden, db)
      else if ContainerCount(db, p.uuid) >= p.maxContainerLimit then (ResourceConflict(["CONTAINER_COUNT_LIMIT"]), db)
      else if NormaliseImage(body.imageName).0 !in Whitelist then (BodyBadSemantics("image"), db)
      else Launch(db, p.uuid, token.user, body, ImageName(body.imageName), ParsePortSpecs(Whitelist["ubuntu"]), exposed, nameToken, docker)
  }

  /** Once the checks pass, the only server error is a failing Docker
      call: the whitelisted port spec parses and the normalised image has
      a non-empty base. A Docker failure leaves the container row and its
      port rows committed, without the fields `create` sets. */
  lemma AdmittedIsCreated(db: Db, token: AccessToken, projectId: nat, body: NewContainerBody,
                          exposed: nat -> int, nameToken: seq<byte>, docker: Option<string>)
    ensures var r := CreateContainer(db, token, projectId, body, exposed, nameToken, docker);
            r.0 in {ResourceCreated, ServerError} ==> (r.0 == ServerError <==> docker.None?)
    ensures var r := CreateContainer(db, token, projectId, body, exposed, nameToken, docker);
            r.0 == ServerError ==>
              && |r.1.containers| == |db.containers| + 1
              && r.1.containers[..|db.containers|] == db.containers
              && r.1.containers[|db.containers|] == Container(db.nextId, body.name, body.description, None, None, None, projectId, Some(token.user))
              && |r.1.ports| == |db.ports| + 2
  {
    var r := CreateContainer(db, token, projectId, body, exposed, nameToken, docker);
    if r.0 in {ResourceCreated, ServerError} {
      var (base, version) := NormaliseImage(body.imageName);
      assert base == "ubuntu";
      var image := ImageName(body.imageName);
      SshPortSpec();
      ContainerNameOfImage(base, version, nameToken);
      var i := TargetProjectIndex(db, projectId).value;
      assert db.projects[i].uuid == projectId;
      LaunchSteps(db, projectId, token.user, body, image, ParsePortSpecs(Whitelist["ubuntu"]), exposed, nameToken, docker, base + "_" + Buf2Hex(nameToken));
    }
  }

  /** A project keeps its default limit of 0 until it is raised, and with
      it no container can be created. */
  lemma ZeroLimitAdmitsNone(db: Db, token: AccessToken, projectId: nat, body: NewContainerBody,
                            exposed: nat -> int, nameToken: seq<byte>, docker: Option<string>)
    requires TargetProjectIndex(db, projectId).Some?
    requires db.projects[TargetProjectIndex(db, projectId).value].maxContainerLimit <= 0
    ensures CreateContainer(db, token, projectId, body, exposed, nameToken, docker).0
            in {ResourceForbidden, ResourceConflict(["CONTAINER_COUNT_LIMIT"])}
  {
  }

  /** A new container row with two port rows of its own, all under fresh
      keys, keeps the store invariant when its project exists. */
  lemma AddContainerKeepsValid(db: Db, db': Db, c: Container, a: Port, b: Port)
    requires Valid(db) && ProjectExists(db, c.projectId)
    requires c.uuid == db.nextId && a.uuid == db.nextId + 1 && b.uuid == db.nextId + 2
    requires a.containerId == c.uuid && b.containerId == c.uuid
    requires db' == db.(containers := db.containers + [c], ports := db.ports + [a, b], nextId := db.nextId + 3)
    ensures Valid(db')
  {
    assert KeysBelow(db') by {
      forall x | x in db'.containers ensures x.uuid < db'.nextId {
        if x in db.containers {
        }
      }
      forall o | o in db'.ports ensures o.uuid < db'.nextId {
        if o in db.ports {
        }
      }
    }
    assert UniqueKeys(db') by {
      forall i, j | 0 <= i < j < |db'.containers| ensures db'.containers[i].uuid != db'.containers[j].uuid {
        assert db'.containers[i] == db.containers[i];
        if j < |db.containers| {
          assert db'.containers[j] == db.containers[j];
        } else {
          assert db.containers[i] in db.containers;
        }
      }
    }
    assert Referenced(db') by {
      assert ContainerExists(db', c.uuid) by {
        assert db'.containers[|db.containers|] == c;
      }
      forall o | o in db'.ports ensures ContainerExists(db', o.containerId) {
        if o in db.ports {
          var k :| 0 <= k < |db.containers| && db.containers[k].uuid == o.containerId;
          assert db'.containers[k] == db.containers[k];
        }
      }
      forall x | x in db'.containers ensures ProjectExists(db', x.projectId) {
        if x in db.containers {
        }
      }
    }
  }


  /** A launch into an existing project keeps the store invariant, whether
      Docker succeeds or not. */
  lemma LaunchKeepsValid(db: Db, projectUuid: nat, user: nat, body: NewContainerBody, image: string,
                         parsed: Option<seq<PortSpec>>, exposed: nat -> int, nameToken: seq<byte>, docker: Option<string>, name: string)
    requires Valid(db) && ProjectExists(db, projectUuid)
    requires parsed == Some([PortSpec(22, [Tcp, Udp])])
    requires ContainerNameFor(image, nameToken) == Some(name)
    ensures Valid(Launch(db, projectUuid, user, body, image, parsed, exposed, nameToken, docker).1)
  {
    var r := Launch(db, projectUuid, user, body, image, parsed, exposed, nameToken, docker);
    LaunchSteps(db, projectUuid, user, body, image, parsed, exposed, nameToken, docker, name);
    var n := db.nextId;
    var c := r.1.containers[|db.containers|];
    assert c.uuid == n && c.projectId == projectUuid;
    AddContainerKeepsValid(db, r.1, c, r.1.ports[|db.ports|], r.1.ports[|db.ports| + 1]);
  }

  /** Every outcome of the route leaves a valid store. */
  lemma CreateContainerKeepsValid(db: Db, token: AccessToken, projectId: nat, body: NewContainerBody,
                                  exposed: nat -> int, nameToken: seq<byte>, docker: Option<string>)
    requires Valid(db)
    ensures Valid(CreateContainer(db, token, projectId, body, exposed, nameToken, docker).1)
  {
    var r := CreateContainer(db, token, projectId, body, exposed, nameToken, docker);
    if r.0 in {ResourceCreated, ServerError} {
      var i := TargetProjectIndex(db, projectId).value;
      assert ProjectExists(db, projectId) by {
        assert db.projects[i].uuid == projectId;
      }
      SshPortSpec();
      var (base, version) := NormaliseImage(body.imageName);
      ContainerNameOfImage(base, version, nameToken);
      LaunchKeepsValid(db, projectId, token.user, body, ImageName(body.imageName), ParsePortSpecs(Whitelist["ubuntu"]),
                       exposed, nameToken, docker, base + "_" + Buf2Hex(nameToken));
    }
  }
}
