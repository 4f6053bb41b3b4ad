/** The control channel the containers call back on. A connection is
    accepted only when its `token` header is some container's token; the
    token then names the caller on every message. The channel issues
    certificates, takes the app's info and shows a container its billing
    figures. A reply starts with the request's id and an empty result;
    a failed handler adds its message. */
module ControlChannel {
  import opened Common
  import Consts
  import RecordStore
  import Releases
  import opened OrchestratorSpec
  import OrchestratorStart
  import Orchestrator

  /** What the handlers read of a request's `params`: the app key to
      certify ("" when missing) and the app info for `set_info`. */
  datatype Params = Params(pubkey: string, info: Option<AppInfo>)

  datatype Req = Req(id: string, methodName: string, params: Params)

  /** The attestation of the enclave, the service key that signs and the clock. */
  datatype Certifier = Certifier(attestation: Releases.Attestation, servicePubkey: string, now: int)

  /** The `container` object of `get_container_info`. */
  datatype Projection = Projection(
    pubkey: string,
    balance: int,
    uptimeCount: int,
    uptimePaid: int,
    units: int,
    price: int,
    interval: int,
    walletPubkey: Option<string>)

  /** A reply's `result`: the initial `""`, the certificates, `{ok: true}`
      after `set_info`, or the container's figures. */
  datatype Body = Empty | Certificates(root: Releases.Template, certs: seq<Releases.Template>) | InfoSet | ContainerInfo(container: Projection)

  datatype Rep = Rep(id: string, result: Body, error: Option<string>)

  /** The message of the exception when a handler dereferences a missing container. */
  const NoContainer := "Cannot read properties of undefined (reading 'info')"

  /** `getContainer`: the container whose token the connection presented. */
  function ContainerFor(s: Snap, token: Option<string>): (r: Option<string>)
    ensures r.Some? ==> token.Some? && r.value in s.conts && s.conts[r.value].info.token == token.value
    ensures r.None? && token.Some? ==>
      forall i :: 0 <= i < |s.order| && s.order[i] in s.conts ==> s.conts[s.order[i]].info.token != token.value
  {
    if token.None? then None else ContainerByToken(s.conts, s.order, token.value)
  }

  /** `checkHeaders`: whether a connection is kept. */
  predicate Admits(s: Snap, token: Option<string>)
  {
    ContainerFor(s, token).Some?
  }

  /** A connection is accepted exactly when some container holds its token. */
  lemma CheckHeadersAcceptsOwners(s: Snap, t: string)
    requires forall k :: k in s.conts ==> k in s.order
    ensures Admits(s, Some(t)) <==> exists k :: k in s.conts && s.conts[k].info.token == t
    ensures !Admits(s, None)
  {
    if k :| k in s.conts && s.conts[k].info.token == t {
      var i :| 0 <= i < |s.order| && s.order[i] == k;
      assert s.order[i] in s.conts && s.conts[s.order[i]].info.token == t;
    }
  }

  /** `create_certificate`: the enclave's root certificate, then the
      container's certificate (signed by the service key) and the app's
      (signed by the container). */
  function Certify(s: Snap, token: Option<string>, req: Req, z: Certifier): (r: Result<Body>)
    ensures req.params.pubkey == "" ==> r == Err("No pubkey for certificate")
    ensures req.params.pubkey != "" && ContainerFor(s, token).None? ==> r == Err(NoContainer)
    ensures r.Ok? <==> req.params.pubkey != "" && ContainerFor(s, token).Some?
    ensures r.Ok? ==>
      var info := s.conts[ContainerFor(s, token).value].info;
      r.value.Certificates? && |r.value.certs| == 2
      && r.value.root.kind == Consts.KindRootCertificate && r.value.root.pubkey == z.servicePubkey
      && r.value.certs[0].pubkey == z.servicePubkey
      && Releases.Tv(r.value.certs[0].tags, "p") == Some(info.pubkey)
      && r.value.certs[1].pubkey == info.pubkey
      && Releases.Tv(r.value.certs[1].tags, "p") == Some(req.params.pubkey)
  {
    if req.params.pubkey == "" then Err("No pubkey for certificate")
    else
      var root := Releases.PrepareRootCertificate(z.attestation, z.servicePubkey, z.now);
      match ContainerFor(s, token)
      case None => Err(NoContainer)
      case Some(k) =>
        var info := s.conts[k].info;
        var contCert := Releases.PrepareContainerCert(info, z.servicePubkey, z.now);
        var appCert := Releases.PrepareAppCert(info, req.params.pubkey, z.now);
        Ok(Certificates(root, [contCert, appCert]))
  }

  datatype Handled = Handled(s: Snap, result: Result<Body>)

  /** `set_info`: the caller's app info is handed to the server, which may
      start the stored containers without waiting for them; the reply is
      `{ok: true}` whatever that start does. */
  function TakeInfo(s: Snap, token: Option<string>, req: Req, o: Oracles): (r: Handled)
    requires RecordStore.TableValid(s.rows, s.dbOrder, s.nextId)
    ensures req.params.info.None? ==> r == Handled(s, Err("No info for set_info"))
    ensures req.params.info.Some? && ContainerFor(s, token).None? ==> r == Handled(s, Err(NoContainer))
    ensures r.result.Ok? <==> req.params.info.Some? && ContainerFor(s, token).Some?
    ensures r.result.Ok? ==>
      r.result.value == InfoSet
      && r.s == OrchestratorStart.SetAppInfo(s, ContainerFor(s, token).value, req.params.info.value, o).s
  {
    if req.params.info.None? then Handled(s, Err("No info for set_info"))
    else
      match ContainerFor(s, token)
      case None => Handled(s, Err(NoContainer))
      case Some(k) =>
        var t := OrchestratorStart.SetAppInfo(s, k, req.params.info.value, o);
        Handled(t.s, Ok(InfoSet))
  }

  /** `get_container_info`: the caller's billing figures, priced as the
      charge loop prices one interval. */
  function GetContainerInfo(s: Snap, token: Option<string>): (r: Result<Body>)
    ensures r.Err? <==> ContainerFor(s, token).None?
    ensures r.Err? ==> r == Err("Invalid token")
    ensures r.Ok? ==>
      var c := s.conts[ContainerFor(s, token).value];
      r.value.ContainerInfo?
      && r.value.container.price == AmountMsat(c.info)
      && r.value.container.interval == Consts.ChargeInterval
      && r.value.container.pubkey == c.info.pubkey
      && r.value.container.balance == c.info.balance
      && r.value.container.units == c.info.units
      && r.value.container.uptimeCount == c.info.uptimeCount
      && r.value.container.uptimePaid == c.info.uptimePaid
      && r.value.container.walletPubkey == c.walletPubkey
  {
    match ContainerFor(s, token)
    case None => Err("Invalid token")
    case Some(k) =>
      var c := s.conts[k];
      Ok(ContainerInfo(Projection(c.info.pubkey, c.info.balance, c.info.uptimeCount, c.info.uptimePaid,
        c.info.units, c.info.units * Consts.SatsPerUnitPerInterval * 1000, Consts.ChargeInterval, c.walletPubkey)))
  }

  /** `handle`: dispatch by method; any other method does nothing. */
  function Handle(s: Snap, token: Option<string>, req: Req, z: Certifier, o: Oracles): (r: Handled)
    requires RecordStore.TableValid(s.rows, s.dbOrder, s.nextId)
  {
    if req.methodName == "create_certificate" then Handled(s, Certify(s, token, req, z))
    else if req.methodName == "set_info" then TakeInfo(s, token, req, o)
    else if req.methodName == "get_container_info" then Handled(s, GetContainerInfo(s, token))
    else Handled(s, Ok(Empty))
  }

  datatype Answered = Answered(s: Snap, rep: Option<Rep>)

  /** `onMessage`: a message that is not JSON closes the connection;
      otherwise the reply keeps the request's id, and the handler's result,
      or its error message beside the empty result. */
  function Respond(s: Snap, token: Option<string>, data: Result<Req>, z: Certifier, o: Oracles): (r: Answered)
    requires RecordStore.TableValid(s.rows, s.dbOrder, s.nextId)
    ensures data.Err? ==> r == Answered(s, None)
    ensures data.Ok? ==> r.rep.Some? && r.rep.value.id == data.value.id
    ensures r.rep.Some? && r.rep.value.error.Some? ==> r.rep.value.result == Empty
  {
    match data
    case Err(_) => Answered(s, None)
    case Ok(req) =>
      var h := Handle(s, token, req, z, o);
      match h.result
      case Ok(b) => Answered(h.s, Some(Rep(req.id, b, None)))
      case Err(m) => Answered(h.s, Some(Rep(req.id, Empty, Some(m))))
  }

  /** A method the channel does not know is answered with the initial
      reply and changes nothing. */
  lemma UnknownMethodRepliesEmpty(s: Snap, token: Option<string>, req: Req, z: Certifier, o: Oracles)
    requires RecordStore.TableValid(s.rows, s.dbOrder, s.nextId)
    requires req.methodName != "create_certificate" && req.methodName != "set_info" && req.methodName != "get_container_info"
    ensures Respond(s, token, Ok(req), z, o) == Answered(s, Some(Rep(req.id, Empty, None)))
  {
  }

  /** Only `set_info` changes the server. */
  lemma OnlySetInfoChanges(s: Snap, token: Option<string>, data: Result<Req>, z: Certifier, o: Oracles)
    requires RecordStore.TableValid(s.rows, s.dbOrder, s.nextId)
    requires data.Err? || data.value.methodName != "set_info"
    ensures Respond(s, token, data, z, o).s == s
  {
  }

  /** The price shown to a container is what one interval of the charge loop bills. */
  lemma PriceIsOneInterval(s: Snap, token: Option<string>, req: Req, z: Certifier, o: Oracles)
    requires RecordStore.TableValid(s.rows, s.dbOrder, s.nextId)
    requires req.methodName == "get_container_info" && ContainerFor(s, token).Some?
    ensures var r := Respond(s, token, Ok(req), z, o);
      r.rep.Some? && r.rep.value.error.None? && r.rep.value.result.ContainerInfo?
      && r.rep.value.result.container.price
         == s.conts[ContainerFor(s, token).value].info.units * Consts.SatsPerUnitPerInterval * 1000
  {
  }

  /** `ContainerServer`: the handlers over the application server they serve. */
  class ContainerServer {
    const server: Orchestrator.AppServer

    constructor(server: Orchestrator.AppServer)
      ensures this.server == server
    {
      this.server := server;
    }

    method GetContainer(token: Option<string>) returns (r: Option<string>)
      ensures r == ContainerFor(server.Snapshot(), token)
    {
      if token.None? {
        return None;
      }
      r := server.GetContainerByToken(token.value);
    }

    method CheckHeaders(token: Option<string>) returns (ok: bool)
      ensures ok == Admits(server.Snapshot(), token)
    {
      var c := GetContainer(token);
      ok := c.Some?;
    }

    method OnMessage(token: Option<string>, data: Result<Req>, z: Certifier, ext: Oracles) returns (rep: Option<Rep>)
      requires server.Valid()
      modifies server, server.db
      ensures server.Valid()
      ensures Answered(server.Snapshot(), rep) == Respond(old(server.Snapshot()), token, data, z, ext)
    {
      if data.Err? {
        return None;
      }
      var req := data.value;
      var result: Result<Body>;
      if req.methodName == "create_certificate" {
        result := CreateCertificate(token, req, z);
      } else if req.methodName == "set_info" {
        result := SetInfo(token, req, ext);
      } else if req.methodName == "get_container_info" {
        result := GetContainerInfo(server.Snapshot(), token);
      } else {
        result := Ok(Empty);
      }
      match result
      case Ok(b) => rep := Some(Rep(req.id, b, None));
      case Err(m) => rep := Some(Rep(req.id, Empty, Some(m)));
    }

    method CreateCertificate(token: Option<string>, req: Req, z: Certifier) returns (result: Result<Body>)
      ensures result == Certify(server.Snapshot(), token, req, z)
    {
      if req.params.pubkey == "" {
        return Err("No pubkey for certificate");
      }
      var root := Releases.PrepareRootCertificate(z.attestation, z.servicePubkey, z.now);
      var c := GetContainer(token);
      if c.None? {
        return Err(NoContainer);
      }
      var info := server.conts[c.value].info;
      var contCert := Releases.PrepareContainerCert(info, z.servicePubkey, z.now);
      var appCert := Releases.PrepareAppCert(info, req.params.pubkey, z.now);
      result := Ok(Certificates(root, [contCert, appCert]));
    }

    method SetInfo(token: Option<string>, req: Req, ext: Oracles) returns (result: Result<Body>)
      requires server.Valid()
      modifies server, server.db
      ensures server.Valid()
      ensures Handled(server.Snapshot(), result) == TakeInfo(old(server.Snapshot()), token, req, ext)
    {
      if req.params.info.None? {
        return Err("No info for set_info");
      }
      var c := GetContainer(token);
      if c.None? {
        return Err(NoContainer);
      }
      var ignored := server.SetContainerAppInfo(c.value, req.params.info.value, ext);
      result := Ok(InfoSet);
    }
  }
}
