/** How the application server creates containers: the record of a new
    container with its port range, the wallet set-up of `ensureWallet`,
    admission of `launch` requests, the built-in containers of the
    configuration, the loading of the stored containers once the wallet
    reports its pubkey, and the app info a container reports. All of it as
    functions of a snapshot, like the monitor steps. */
module OrchestratorStart {
  import opened Common
  import Consts
  import RecordStore
  import opened OrchestratorSpec

  /** The parameters of a `launch` request or of a built-in entry of the
      configuration. `units` 0 and the empty strings stand for absent
      values, which JavaScript's `||` treats alike. */
  datatype Params = Params(docker: string, units: int, env: Option<RecordStore.Env>, name: string, upgrade: string)

  /** A freshly generated key: the secret key, its pubkey and a random token. */
  datatype KeyGen = KeyGen(seckey: seq<byte>, pubkey: string, token: string)

  // ---------------------------------------------------------------------
  // New records and their port ranges

  /** The first of `p`, `p + 100`, `p + 200`, ... that no container uses. */
  function FreeFrom(ps: set<int>, p: int): (r: int)
    ensures r >= p && r !in ps
    decreases set q | q in ps && q >= p
  {
    if p in ps then
      AboveShrinks(ps, p);
      FreeFrom(ps, p + Consts.PortsPerContainer)
    else p
  }

  /** The used starts at or above `p` lose `p` when the search moves on. */
  lemma AboveShrinks(ps: set<int>, p: int)
    requires p in ps
    ensures (set q | q in ps && q >= p + Consts.PortsPerContainer) < (set q | q in ps && q >= p)
  {
    var a := set q | q in ps && q >= p + Consts.PortsPerContainer;
    var b := set q | q in ps && q >= p;
    assert a <= b;
    assert p in b && p !in a;
  }

  /** Two grid points less than one range apart are the same point. */
  lemma GridStep(p: int, q: int)
    requires OnGrid(p) && OnGrid(q) && p <= q < p + Consts.PortsPerContainer
    ensures q == p
  {
    if p != q {
      GridRangesDisjoint(p, q);
    }
  }

  /** Searching from a grid point below which every grid point is taken
      finds the least free range start. */
  lemma {:induction false} FreeFromLeast(ps: set<int>, p: int)
    requires OnGrid(p) && forall q :: OnGrid(q) && q < p ==> q in ps
    ensures LeastFree(ps, FreeFrom(ps, p))
    decreases set q | q in ps && q >= p
  {
    if p in ps {
      var n := p + Consts.PortsPerContainer;
      assert OnGrid(n) by {
        assert n - Consts.MinPortsFrom == (p - Consts.MinPortsFrom) + Consts.PortsPerContainer;
      }
      forall q | OnGrid(q) && q < n ensures q in ps {
        if q >= p {
          GridStep(p, q);
        }
      }
      AboveShrinks(ps, p);
      FreeFromLeast(ps, n);
    }
  }

  /** `createContainerFromParams`: a waiting record with zero counters and
      balance, one unit unless given, named by its pubkey unless given, and
      the first port range start no in-memory container uses. */
  function NewRecord(conts: map<string, Cont>, p: Params, isBuiltin: bool, g: KeyGen): (r: Record)
  {
    RecordStore.DBContainer(
      id := 0,
      pubkey := g.pubkey,
      seckey := g.seckey,
      token := g.token,
      adminPubkey := None,
      portsFrom := FreeFrom(PortsInUse(conts), Consts.MinPortsFrom),
      name := if p.name == "" then g.pubkey else p.name,
      docker := p.docker,
      units := if p.units == 0 then 1 else p.units,
      isBuiltin := isBuiltin,
      env := p.env,
      state := RecordStore.Waiting,
      paymentHash := "",
      uptimeCount := 0,
      uptimePaid := 0,
      balance := 0,
      upgrade := p.upgrade)
  }

  /** A new record starts waiting and unpaid, with the defaults filled in and
      the least free port range start; when every container sits on the
      grid, its port range overlaps none of theirs. */
  lemma NewRecordFacts(conts: map<string, Cont>, p: Params, isBuiltin: bool, g: KeyGen)
    ensures var r := NewRecord(conts, p, isBuiltin, g);
      r.state == RecordStore.Waiting && r.uptimeCount == 0 && r.uptimePaid == 0 && r.balance == 0
      && r.units == (if p.units == 0 then 1 else p.units) && r.name == (if p.name == "" then g.pubkey else p.name)
      && r.upgrade == p.upgrade && r.isBuiltin == isBuiltin && r.pubkey == g.pubkey
    ensures LeastFree(PortsInUse(conts), NewRecord(conts, p, isBuiltin, g).portsFrom)
    ensures (forall k :: k in conts ==> OnGrid(conts[k].info.portsFrom)) ==>
      forall k :: k in conts ==>
        var q := conts[k].info.portsFrom;
        NewRecord(conts, p, isBuiltin, g).portsFrom + Consts.PortsPerContainer <= q
        || q + Consts.PortsPerContainer <= NewRecord(conts, p, isBuiltin, g).portsFrom
  {
    var ps := PortsInUse(conts);
    FreeFromLeast(ps, Consts.MinPortsFrom);
    var r := NewRecord(conts, p, isBuiltin, g);
    if forall k :: k in conts ==> OnGrid(conts[k].info.portsFrom) {
      forall k | k in conts
        ensures r.portsFrom + Consts.PortsPerContainer <= conts[k].info.portsFrom
             || conts[k].info.portsFrom + Consts.PortsPerContainer <= r.portsFrom
      {
        GridRangesDisjoint(r.portsFrom, conts[k].info.portsFrom);
      }
    }
  }

  // ---------------------------------------------------------------------
  // Small state changes

  /** `conts.set(k, c)`: a new key joins the map order last, an existing one
      keeps its place. */
  function Put(s: Snap, k: string, c: Cont): (t: Snap)
    ensures t.conts == s.conts[k := c] && t.rows == s.rows && t.clients == s.clients
  {
    s.(conts := s.conts[k := c], order := if k in s.conts then s.order else s.order + [k])
  }

  /** `upsertContainer` applied to the snapshot's table. */
  function UpsertRow(s: Snap, c: Record): (r: Step)
    requires RecordStore.TableValid(s.rows, s.dbOrder, s.nextId)
    ensures RecordStore.TableValid(r.s.rows, r.s.dbOrder, r.s.nextId)
    ensures r.s.conts == s.conts && r.s.order == s.order && r.s.clients == s.clients && r.s.started == s.started
    ensures r.o.Fail? ==> r.s == s
  {
    var u := RecordStore.Upsert(s.rows, s.dbOrder, s.nextId, c);
    Step(s.(rows := u.rows, dbOrder := u.order, nextId := u.nextId), u.o)
  }

  /** `changeState` alone, without recording the state in the table. */
  function Change(s: Snap, k: string, st: State, o: Oracles): (r: Step)
    requires k in s.conts
    ensures k in r.s.conts && r.s.rows == s.rows && r.s.order == s.order && r.s.conts.Keys == s.conts.Keys
  {
    var c := s.conts[k];
    match o.change(c, st)
    case Fail(m) => Step(s, Fail(m))
    case Done => Step(s.(conts := s.conts[k := c.(info := c.info.(state := st))]), Done)
  }

  /** Recording a new state keeps the table's indexes. */
  lemma MoveToKeepsTable(s: Snap, k: string, st: State, o: Oracles)
    requires k in s.conts && RecordStore.TableValid(s.rows, s.dbOrder, s.nextId)
    ensures var m := MoveTo(s, k, st, o);
      RecordStore.TableValid(m.s.rows, m.s.dbOrder, m.s.nextId) && m.s.order == s.order && k in m.s.conts
      && m.s.started == s.started && m.s.conts.Keys == s.conts.Keys
  {
    var c := s.conts[k];
    var m := MoveTo(s, k, st, o);
    if o.change(c, st).Done? && c.info.pubkey in s.rows {
      var row := s.rows[c.info.pubkey].(state := st);
      RecordStore.PointUpdateKeepsTable(s.rows, s.dbOrder, s.nextId, c.info.pubkey, row);
      assert m.s.rows == s.rows[c.info.pubkey := row];
    } else {
      assert m.s.rows == s.rows;
    }
  }

  datatype Wallet = Wallet(clients: map<string, Client>, c: Cont)

  /** `ensureWallet`: remember the wallet's pubkey, let the wallet accept the
      container's key and create its client; any failure ends the set-up
      silently where it happens. */
  function EnsureWallet(s: Snap, c: Cont, o: Oracles): (r: Wallet)
    ensures r.c == c.(walletPubkey := r.c.walletPubkey)
  {
    match WalletPubkey(s.conts, s.order)
    case Err(_) => Wallet(s.clients, c)
    case Ok(w) =>
      var c1 := c.(walletPubkey := Some(w));
      var p := NwcFor(s, o.service);
      if p.client.Err? || o.addPubkey(c.info.pubkey).Fail? then Wallet(p.clients, c1)
      else Wallet(NwcFor(s.(clients := p.clients), c.info.pubkey).clients, c1)
  }

  /** The set-up changes nothing but the wallet pubkey of the container and
      the client cache, whose entries it never replaces; with a wallet it
      records the wallet's pubkey, and a wallet that accepts the key leaves
      a client for the container cached. */
  lemma EnsureWalletFacts(s: Snap, c: Cont, o: Oracles)
    ensures var r := EnsureWallet(s, c, o);
      r.c == c.(walletPubkey := r.c.walletPubkey)
      && (forall j :: j in s.clients ==> j in r.clients && r.clients[j] == s.clients[j])
    ensures var r := EnsureWallet(s, c, o);
      match WalletPubkey(s.conts, s.order)
      case Err(_) => r.c == c && r.clients == s.clients
      case Ok(w) =>
        r.c.walletPubkey == Some(w)
        && (o.addPubkey(c.info.pubkey).Done? ==> c.info.pubkey in r.clients)
  {
    NwcForCaches(s, o.service);
    var p := NwcFor(s, o.service);
    NwcForCaches(s.(clients := p.clients), c.info.pubkey);
    var w := WalletPubkey(s.conts, s.order);
    if w.Ok? && o.service !in s.clients {
      assert p.client.Ok?;
    }
  }

  // ---------------------------------------------------------------------
  // Admitting a launch

  /** A launch's effect, and the payment hash of the invoice in its reply. */
  datatype Launched = Launched(s: Snap, o: Outcome, hash: string)

  /** The checks of `launch` in the source's order: started, docker,
      units, capacity, then the image's size as the registry reports it. */
  function LaunchCheck(s: Snap, p: Params, imageSize: Result<int>): (r: Outcome)
  {
    if !s.started then Fail("Retry later")
    else if p.docker == "" then Fail("Specify docker url")
    else if p.units == 0 then Fail("Specify units")
    else if UsedUnits(s.conts, s.order) + p.units > Consts.TotalUnits then Fail("Not enough free units")
    else if imageSize.Err? then Fail(imageSize.msg)
    else if ImageTooBig(imageSize.value, p.units) then Fail("Need more units for this image")
    else Done
  }

  /** The record a launch from `requester` creates: a waiting, unpaid
      record owned by the requester, not built in, with the defaults filled
      in, on the least free port range start. */
  function LaunchRecord(s: Snap, requester: string, p: Params, g: KeyGen): (r: Record)
    ensures r.state == RecordStore.Waiting && r.uptimeCount == 0 && r.uptimePaid == 0 && r.balance == 0
    ensures r.adminPubkey == Some(requester) && r.pubkey == g.pubkey && !r.isBuiltin
    ensures r.units == (if p.units == 0 then 1 else p.units) && r.name == (if p.name == "" then g.pubkey else p.name)
    ensures r.upgrade == p.upgrade
    ensures LeastFree(PortsInUse(s.conts), r.portsFrom)
  {
    NewRecordFacts(s.conts, p, false, g);
    NewRecord(s.conts, p, false, g).(adminPubkey := Some(requester))
  }

  /** The end of `launch`: the row is written, then the container joins
      the map. */
  function Commit(s: Snap, c: Cont, hash: string): (r: Launched)
    requires RecordStore.TableValid(s.rows, s.dbOrder, s.nextId)
  {
    var u := UpsertRow(s, c.info);
    if u.o.Fail? then Launched(u.s, u.o, "")
    else Launched(Put(u.s, c.info.pubkey, c), Done, hash)
  }

  /** What `launch` has done before it writes the row: the snapshot with
      the new clients cached, the container with its wallet, and the
      invoice's payment hash or the failure that ends the launch. */
  datatype Invoiced = Invoiced(s: Snap, c: Cont, hash: Result<string>)

  /** The wallet set-up of the new container, its client and the invoice
      for its first interval; only the client cache changes. */
  function Invoice(s: Snap, info: Record, o: Oracles): (r: Invoiced)
    ensures r.s == s.(clients := r.s.clients)
    ensures r.c == Cont(info, None, false, r.c.walletPubkey)
  {
    var w := EnsureWallet(s, Cont(info, None, false, None), o);
    var s1 := s.(clients := w.clients);
    var n := NwcFor(s1, info.pubkey);
    var s2 := s1.(clients := n.clients);
    if n.client.Err? then Invoiced(s2, w.c, Err(n.client.msg))
    else Invoiced(s2, w.c, o.invoice(info.pubkey, AmountMsat(info)))
  }

  /** `launch` for a request from `requester`: the checks, then the new
      record, its wallet, the invoice for its first interval, the row and
      the in-memory container. */
  function Launch(s: Snap, requester: string, p: Params, g: KeyGen, imageSize: Result<int>, o: Oracles): (r: Launched)
    requires RecordStore.TableValid(s.rows, s.dbOrder, s.nextId)
  {
    var chk := LaunchCheck(s, p, imageSize);
    if chk.Fail? then Launched(s, chk, "")
    else Admit(s, LaunchRecord(s, requester, p, g), o)
  }

  /** The part of `launch` after its checks. */
  function Admit(s: Snap, info: Record, o: Oracles): (r: Launched)
    requires RecordStore.TableValid(s.rows, s.dbOrder, s.nextId)
  {
    var v := Invoice(s, info, o);
    match v.hash
    case Err(m) => Launched(v.s, Fail(m), "")
    case Ok(hash) => Commit(v.s, v.c.(info := info.(paymentHash := hash)), hash)
  }

  /** The checks come in the source's order, a request they refuse changes
      nothing, and only a request passing all of them goes further. */
  lemma LaunchChecksInOrder(s: Snap, p: Params, imageSize: Result<int>)
    ensures var r := LaunchCheck(s, p, imageSize);
      (!s.started ==> r == Fail("Retry later"))
      && (s.started && p.docker == "" ==> r == Fail("Specify docker url"))
      && (s.started && p.docker != "" && p.units == 0 ==> r == Fail("Specify units"))
    ensures var r := LaunchCheck(s, p, imageSize);
      s.started && p.docker != "" && p.units != 0 && UsedUnits(s.conts, s.order) + p.units > Consts.TotalUnits
      ==> r == Fail("Not enough free units")
    ensures var r := LaunchCheck(s, p, imageSize);
      s.started && p.docker != "" && p.units != 0 && UsedUnits(s.conts, s.order) + p.units <= Consts.TotalUnits
      && imageSize.Ok? && ImageTooBig(imageSize.value, p.units)
      ==> r == Fail("Need more units for this image")
    ensures LaunchCheck(s, p, imageSize) == Done <==>
      (s.started && p.docker != "" && p.units != 0 && UsedUnits(s.conts, s.order) + p.units <= Consts.TotalUnits
       && imageSize.Ok? && !ImageTooBig(imageSize.value, p.units))
  {
  }

  /** A refused request leaves the server as it was. */
  lemma LaunchRefusedUnchanged(s: Snap, requester: string, p: Params, g: KeyGen, imageSize: Result<int>, o: Oracles)
    requires RecordStore.TableValid(s.rows, s.dbOrder, s.nextId)
    requires LaunchCheck(s, p, imageSize).Fail?
    ensures Launch(s, requester, p, g, imageSize, o) == Launched(s, LaunchCheck(s, p, imageSize), "")
  {
  }

  /** A committed launch leaves the container in memory under its pubkey,
      and its row in the table when its name was free. */
  lemma CommitFacts(s: Snap, c: Cont, hash: string)
    requires RecordStore.TableValid(s.rows, s.dbOrder, s.nextId)
    requires Commit(s, c, hash).o == Done
    ensures var r := Commit(s, c, hash);
      c.info.pubkey in r.s.conts && r.s.conts[c.info.pubkey] == c && r.hash == hash
      && r.s.conts == s.conts[c.info.pubkey := c]
      && r.s.order == (if c.info.pubkey in s.conts then s.order else s.order + [c.info.pubkey])
    ensures (forall k :: k in s.rows ==> s.rows[k].name != c.info.name) ==>
      var r := Commit(s, c, hash);
      c.info.pubkey in r.s.rows && r.s.rows[c.info.pubkey] == RecordStore.InsertRow(s.nextId, c.info)
  {
    if forall k :: k in s.rows ==> s.rows[k].name != c.info.name {
      assert RecordStore.NameOwner(s.rows, s.dbOrder, c.info.name).None?;
    }
  }

  /** A launch that goes through passed every check and leaves a waiting
      container under the new pubkey, owned by the requester, carrying the
      invoice's payment hash, on the least free port range start, and with
      its row in the table when its name was free. */
  lemma LaunchAdmitted(s: Snap, requester: string, p: Params, g: KeyGen, imageSize: Result<int>, o: Oracles)
    requires RecordStore.TableValid(s.rows, s.dbOrder, s.nextId)
    requires Launch(s, requester, p, g, imageSize, o).o == Done
    ensures LaunchCheck(s, p, imageSize) == Done
    ensures var r := Launch(s, requester, p, g, imageSize, o);
      g.pubkey in r.s.conts
      && r.s.conts[g.pubkey].info == LaunchRecord(s, requester, p, g).(paymentHash := r.hash)
      && r.s.conts[g.pubkey].appInfo.None? && !r.s.conts[g.pubkey].upgrading
  {
    LaunchCommits(s, requester, p, g, imageSize, o);
    var info := LaunchRecord(s, requester, p, g);
    var v := Invoice(s, info, o);
    CommitFacts(v.s, v.c.(info := info.(paymentHash := v.hash.value)), v.hash.value);
  }

  /** A launch adds exactly its container to the map, last in map order
      when its pubkey is new. */
  lemma LaunchAppends(s: Snap, requester: string, p: Params, g: KeyGen, imageSize: Result<int>, o: Oracles)
    requires RecordStore.TableValid(s.rows, s.dbOrder, s.nextId)
    requires Launch(s, requester, p, g, imageSize, o).o == Done
    ensures var r := Launch(s, requester, p, g, imageSize, o);
      r.s.conts.Keys == s.conts.Keys + {g.pubkey}
      && r.s.order == (if g.pubkey in s.conts then s.order else s.order + [g.pubkey])
      && r.s.conts == s.conts[g.pubkey := r.s.conts[g.pubkey]]
  {
    LaunchCommits(s, requester, p, g, imageSize, o);
    var info := LaunchRecord(s, requester, p, g);
    var v := Invoice(s, info, o);
    var c := v.c.(info := info.(paymentHash := v.hash.value));
    CommitFacts(v.s, c, v.hash.value);
    var r := Commit(v.s, c, v.hash.value);
    assert v.s.conts == s.conts && v.s.order == s.order;
    assert r.s.conts == s.conts[g.pubkey := c];
  }

  /** A launch under a free name writes the waiting row with the payment hash. */
  lemma LaunchWritesRow(s: Snap, requester: string, p: Params, g: KeyGen, imageSize: Result<int>, o: Oracles)
    requires RecordStore.TableValid(s.rows, s.dbOrder, s.nextId)
    requires Launch(s, requester, p, g, imageSize, o).o == Done
    requires forall k :: k in s.rows ==> s.rows[k].name != LaunchRecord(s, requester, p, g).name
    ensures var r := Launch(s, requester, p, g, imageSize, o);
      g.pubkey in r.s.rows && r.s.rows[g.pubkey].paymentHash == r.hash
      && r.s.rows[g.pubkey].state == RecordStore.Waiting
      && r.s.rows[g.pubkey].adminPubkey == requester
  {
    LaunchCommits(s, requester, p, g, imageSize, o);
    var info := LaunchRecord(s, requester, p, g);
    var v := Invoice(s, info, o);
    CommitFacts(v.s, v.c.(info := info.(paymentHash := v.hash.value)), v.hash.value);
  }

  /** A launch that goes through is the commit of the invoiced container. */
  lemma LaunchCommits(s: Snap, requester: string, p: Params, g: KeyGen, imageSize: Result<int>, o: Oracles)
    requires RecordStore.TableValid(s.rows, s.dbOrder, s.nextId)
    requires Launch(s, requester, p, g, imageSize, o).o == Done
    ensures LaunchCheck(s, p, imageSize) == Done
    ensures var info := LaunchRecord(s, requester, p, g);
      var v := Invoice(s, info, o);
      v.hash.Ok? && RecordStore.TableValid(v.s.rows, v.s.dbOrder, v.s.nextId)
      && Launch(s, requester, p, g, imageSize, o) == Commit(v.s, v.c.(info := info.(paymentHash := v.hash.value)), v.hash.value)
  {
    assert Launch(s, requester, p, g, imageSize, o) == Admit(s, LaunchRecord(s, requester, p, g), o);
  }

  /** A launch whose name belongs to another row rewrites that row and adds
      the new container to memory without a row of its own. */
  lemma LaunchNameTakenLeavesNoRow(s: Snap, requester: string, p: Params, g: KeyGen, imageSize: Result<int>, o: Oracles)
    requires RecordStore.TableValid(s.rows, s.dbOrder, s.nextId)
    requires Launch(s, requester, p, g, imageSize, o).o == Done
    requires p.name != "" && g.pubkey !in s.rows
    requires exists k :: k in s.rows && s.rows[k].name == p.name
    ensures var r := Launch(s, requester, p, g, imageSize, o);
      g.pubkey in r.s.conts && g.pubkey !in r.s.rows && r.s.rows.Keys == s.rows.Keys
  {
    var k :| k in s.rows && s.rows[k].name == p.name;
    assert RecordStore.NameOwner(s.rows, s.dbOrder, p.name).Some?;
    NewRecordFacts(s.conts, p, false, g);
  }

  /** In-memory units: a new container adds its units. */
  lemma {:induction false} UsedUnitsAppend(conts: map<string, Cont>, order: seq<string>, k: string, c: Cont)
    requires k !in order
    ensures UsedUnits(conts[k := c], order + [k]) == UsedUnits(conts, order) + c.info.units
  {
    UsedUnitsFrame(conts, order, k, c);
    assert (order + [k])[..|order|] == order;
  }

  lemma {:induction false} UsedUnitsFrame(conts: map<string, Cont>, order: seq<string>, k: string, c: Cont)
    requires k !in order
    ensures UsedUnits(conts[k := c], order) == UsedUnits(conts, order)
  {
    if order != [] {
      UsedUnitsFrame(conts, order[..|order| - 1], k, c);
    }
  }

  /** A launch of a new pubkey keeps the units of all in-memory containers
      within `TOTAL_UNITS`. */
  lemma LaunchKeepsCapacity(s: Snap, requester: string, p: Params, g: KeyGen, imageSize: Result<int>, o: Oracles)
    requires RecordStore.TableValid(s.rows, s.dbOrder, s.nextId)
    requires Launch(s, requester, p, g, imageSize, o).o == Done
    requires g.pubkey !in s.conts && g.pubkey !in s.order
    ensures var r := Launch(s, requester, p, g, imageSize, o);
      UsedUnits(r.s.conts, r.s.order) == UsedUnits(s.conts, s.order) + p.units
      && UsedUnits(r.s.conts, r.s.order) <= Consts.TotalUnits
  {
    LaunchAdmitted(s, requester, p, g, imageSize, o);
    LaunchAppends(s, requester, p, g, imageSize, o);
    var r := Launch(s, requester, p, g, imageSize, o);
    UsedUnitsAppend(s.conts, s.order, g.pubkey, r.s.conts[g.pubkey]);
  }

  // ---------------------------------------------------------------------
  // Built-in containers

  /** The record a built-in entry starts from: the stored one under its
      name with docker, env and units taken from the configuration, or a
      new one; either way it is never upgraded automatically. */
  function BuiltinRecord(s: Snap, p: Params, g: KeyGen): (r: Record)
    requires RecordStore.TableValid(s.rows, s.dbOrder, s.nextId)
  {
    var info :=
      match RecordStore.NamedRecord(s.rows, s.dbOrder, p.name)
      case None => NewRecord(s.conts, p, true, g)
      case Some(e) => e.(docker := p.docker, env := p.env, units := p.units);
    info.(upgrade := "")
  }

  /** One entry of `startBuiltin`: a name is required; the record is saved,
      joins the map and is deployed. */
  function Builtin(s: Snap, p: Params, g: KeyGen, o: Oracles): (r: Step)
    requires RecordStore.TableValid(s.rows, s.dbOrder, s.nextId)
    ensures RecordStore.TableValid(r.s.rows, r.s.dbOrder, r.s.nextId)
    ensures r.s.started == s.started
    ensures p.name == "" ==> r == Step(s, Fail("Name not specified for builtin"))
  {
    if p.name == "" then Step(s, Fail("Name not specified for builtin"))
    else
      var info := BuiltinRecord(s, p, g);
      var u := UpsertRow(s, info);
      if u.o.Fail? then u
      else
        var s1 := Put(u.s, info.pubkey, Cont(info, None, false, None));
        MoveToKeepsTable(s1, info.pubkey, RecordStore.Deployed, o);
        MoveTo(s1, info.pubkey, RecordStore.Deployed, o)
  }

  /** `startBuiltin` from entry `i` on; `keyFor(i)` is the key generated for
      entry `i` if it needs a new record. The first failure ends it. */
  function StartBuiltins(s: Snap, bs: seq<Params>, i: nat, keyFor: nat -> KeyGen, o: Oracles): (r: Step)
    requires RecordStore.TableValid(s.rows, s.dbOrder, s.nextId)
    ensures RecordStore.TableValid(r.s.rows, r.s.dbOrder, r.s.nextId)
    ensures r.s.started == s.started
    decreases |bs| - i
  {
    if i >= |bs| then Step(s, Done)
    else
      var b := Builtin(s, bs[i], keyFor(i), o);
      if b.o.Fail? then b else StartBuiltins(b.s, bs, i + 1, keyFor, o)
  }

  /** A stored built-in keeps its key, token and port range and takes the
      configured docker reference, env and units; a new one is a fresh
      built-in record; neither is upgraded automatically. */
  lemma BuiltinRecordFacts(s: Snap, p: Params, g: KeyGen)
    requires RecordStore.TableValid(s.rows, s.dbOrder, s.nextId) && p.name != ""
    ensures var r := BuiltinRecord(s, p, g);
      r.upgrade == "" && r.name == p.name && r.docker == p.docker && r.env == p.env
    ensures var r := BuiltinRecord(s, p, g);
      match RecordStore.NamedRecord(s.rows, s.dbOrder, p.name)
      case Some(e) =>
        r.pubkey == e.pubkey && r.seckey == e.seckey && r.token == e.token && r.portsFrom == e.portsFrom
        && r.units == p.units && e.pubkey in s.rows && s.rows[e.pubkey].name == p.name
      case None =>
        r == NewRecord(s.conts, p, true, g).(upgrade := "") && r.isBuiltin
        && forall k :: k in s.rows ==> s.rows[k].name != p.name
  {
    NewRecordFacts(s.conts, p, true, g);
  }

  /** A built-in entry that goes through had a name and leaves its record
      deployed in the map under its pubkey, with the row recording it. */
  lemma BuiltinDeploys(s: Snap, p: Params, g: KeyGen, o: Oracles)
    requires RecordStore.TableValid(s.rows, s.dbOrder, s.nextId)
    requires Builtin(s, p, g, o).o == Done
    ensures p.name != ""
    ensures var r := Builtin(s, p, g, o);
      var info := BuiltinRecord(s, p, g);
      info.pubkey in r.s.conts && r.s.conts[info.pubkey].info == info.(state := RecordStore.Deployed)
      && info.pubkey in r.s.rows && r.s.rows[info.pubkey].state == RecordStore.Deployed
  {
    var info := BuiltinRecord(s, p, g);
    var u := UpsertRow(s, info);
    var s1 := Put(u.s, info.pubkey, Cont(info, None, false, None));
    MoveToFacts(s1, info.pubkey, RecordStore.Deployed, o);
  }

  /** `startBuiltin` goes through only if every entry is named. */
  lemma {:induction false} StartBuiltinsNamed(s: Snap, bs: seq<Params>, i: nat, keyFor: nat -> KeyGen, o: Oracles)
    requires RecordStore.TableValid(s.rows, s.dbOrder, s.nextId)
    requires StartBuiltins(s, bs, i, keyFor, o).o == Done
    ensures forall j :: i <= j < |bs| ==> bs[j].name != ""
    decreases |bs| - i
  {
    if i < |bs| {
      var b := Builtin(s, bs[i], keyFor(i), o);
      assert b.o.Done? && StartBuiltins(s, bs, i, keyFor, o) == StartBuiltins(b.s, bs, i + 1, keyFor, o);
      assert bs[i].name != "";
      StartBuiltinsNamed(b.s, bs, i + 1, keyFor, o);
      assert forall j :: i + 1 <= j < |bs| ==> bs[j].name != "";
    }
  }

  // ---------------------------------------------------------------------
  // Loading the stored containers

  /** One stored record in `startContainers`: it joins the map, gets its
      wallet set up, its balance refreshed and its runtime brought to its
      stored state; an exception ends the loop. */
  function LoadOne(s: Snap, rec: Record, o: Oracles): (r: Step)
    ensures r.s.started == s.started && r.s.conts.Keys == s.conts.Keys + {rec.pubkey}
  {
    var k := rec.pubkey;
    var c := Cont(rec, None, false, None);
    var s1 := Put(s, k, c);
    var w := EnsureWallet(s1, c, o);
    var s2 := s1.(clients := w.clients, conts := s1.conts[k := w.c]);
    var u := UpdateBalance(s2, k, o);
    if u.o.Fail? then u
    else
      var ch := Change(u.s, k, u.s.conts[k].info.state, o);
      ch
  }

  /** The loop of `startContainers` from record `i` on: a built-in record is
      skipped, any other is loaded. */
  function LoadAll(s: Snap, recs: seq<Record>, i: nat, o: Oracles): (r: Step)
    ensures r.s.started == s.started && s.conts.Keys <= r.s.conts.Keys
    decreases |recs| - i
  {
    if i >= |recs| then Step(s, Done)
    else if recs[i].isBuiltin then LoadAll(s, recs, i + 1, o)
    else
      var l := LoadOne(s, recs[i], o);
      if l.o.Fail? then l else LoadAll(l.s, recs, i + 1, o)
  }

  /** `startContainers`: the gate opens first, then the stored records are
      loaded in row order. */
  function StartContainers(s: Snap, o: Oracles): (r: Step)
    requires RecordStore.TableValid(s.rows, s.dbOrder, s.nextId)
    ensures r.s.started && s.conts.Keys <= r.s.conts.Keys
  {
    LoadAll(s.(started := true), RecordStore.Records(s.rows, s.dbOrder), 0, o)
  }

  /** Loading adds only the non-built-in records it visits. */
  lemma {:induction false} LoadAllAddsUsers(s: Snap, recs: seq<Record>, i: nat, o: Oracles)
    ensures var r := LoadAll(s, recs, i, o);
      forall k :: k in r.s.conts && k !in s.conts ==>
        exists j :: i <= j < |recs| && !recs[j].isBuiltin && recs[j].pubkey == k
    decreases |recs| - i
  {
    if i < |recs| {
      if recs[i].isBuiltin {
        assert LoadAll(s, recs, i, o) == LoadAll(s, recs, i + 1, o);
        LoadAllAddsUsers(s, recs, i + 1, o);
      } else {
        var l := LoadOne(s, recs[i], o);
        if l.o.Done? {
          var r := LoadAll(l.s, recs, i + 1, o);
          assert LoadAll(s, recs, i, o) == r;
          LoadAllAddsUsers(l.s, recs, i + 1, o);
          forall k | k in r.s.conts && k !in s.conts
            ensures exists j :: i <= j < |recs| && !recs[j].isBuiltin && recs[j].pubkey == k
          {
            if k == recs[i].pubkey {
              assert i <= i < |recs| && !recs[i].isBuiltin && recs[i].pubkey == k;
            } else {
              assert k !in l.s.conts;
            }
          }
        } else {
          assert LoadAll(s, recs, i, o) == l;
          assert forall k :: k in l.s.conts && k !in s.conts ==> k == recs[i].pubkey;
        }
      }
    }
  }

  /** A load that goes through has every non-built-in record in the map. */
  lemma {:induction false} LoadAllLoadsUsers(s: Snap, recs: seq<Record>, i: nat, o: Oracles)
    requires LoadAll(s, recs, i, o).o == Done
    ensures forall j :: i <= j < |recs| && !recs[j].isBuiltin ==> recs[j].pubkey in LoadAll(s, recs, i, o).s.conts
    decreases |recs| - i
  {
    if i < |recs| {
      if recs[i].isBuiltin {
        LoadAllLoadsUsers(s, recs, i + 1, o);
      } else {
        var l := LoadOne(s, recs[i], o);
        LoadAllLoadsUsers(l.s, recs, i + 1, o);
      }
    }
  }

  /** `startContainers` opens the gate and adds only stored non-built-in
      containers. */
  lemma StartContainersAddsUsers(s: Snap, o: Oracles)
    requires RecordStore.TableValid(s.rows, s.dbOrder, s.nextId)
    ensures var r := StartContainers(s, o);
      r.s.started && s.conts.Keys <= r.s.conts.Keys
      && forall k :: k in r.s.conts && k !in s.conts ==> k in s.rows && s.rows[k].isBuiltin <= 0
  {
    var recs := RecordStore.Records(s.rows, s.dbOrder);
    var r := LoadAll(s.(started := true), recs, 0, o);
    assert StartContainers(s, o) == r;
    LoadAllAddsUsers(s.(started := true), recs, 0, o);
    forall k | k in r.s.conts && k !in s.conts
      ensures k in s.rows && s.rows[k].isBuiltin <= 0
    {
      var j :| 0 <= j < |recs| && !recs[j].isBuiltin && recs[j].pubkey == k;
      assert s.dbOrder[j] == k;
    }
  }

  /** When `startContainers` goes through, every stored non-built-in
      container is in the map. */
  lemma StartContainersLoadsUsers(s: Snap, o: Oracles)
    requires RecordStore.TableValid(s.rows, s.dbOrder, s.nextId)
    requires StartContainers(s, o).o == Done
    ensures forall k :: k in s.rows && s.rows[k].isBuiltin <= 0 ==> k in StartContainers(s, o).s.conts
  {
    var recs := RecordStore.Records(s.rows, s.dbOrder);
    var r := LoadAll(s.(started := true), recs, 0, o);
    assert StartContainers(s, o) == r;
    LoadAllLoadsUsers(s.(started := true), recs, 0, o);
    forall k | k in s.rows && s.rows[k].isBuiltin <= 0 ensures k in r.s.conts {
      var j :| 0 <= j < |s.dbOrder| && s.dbOrder[j] == k;
      assert recs[j].pubkey == k && !recs[j].isBuiltin;
    }
  }

  // ---------------------------------------------------------------------
  // App info

  /** `setContainerAppInfo`: the container keeps the info; when the wallet
      container reports a pubkey other than before and the stored
      containers were not started yet, they are started now. */
  function SetAppInfo(s: Snap, k: string, info: AppInfo, o: Oracles): (r: Step)
    requires k in s.conts && RecordStore.TableValid(s.rows, s.dbOrder, s.nextId)
  {
    var c := s.conts[k];
    var before := if c.appInfo.Some? then c.appInfo.value.pubkey else None;
    var s1 := s.(conts := s.conts[k := c.(appInfo := Some(info))]);
    if c.info.name == Consts.WalletName && before != info.pubkey && !s.started then StartContainers(s1, o)
    else Step(s1, Done)
  }

  /** The gate of `launch` opens exactly when the wallet container reports
      a changed pubkey, and only the first time does that load anything. */
  lemma SetAppInfoOpensGate(s: Snap, k: string, info: AppInfo, o: Oracles)
    requires k in s.conts && RecordStore.TableValid(s.rows, s.dbOrder, s.nextId)
    ensures var r := SetAppInfo(s, k, info, o);
      var c := s.conts[k];
      var before := if c.appInfo.Some? then c.appInfo.value.pubkey else None;
      r.s.started <==> (s.started || (c.info.name == Consts.WalletName && before != info.pubkey))
    ensures var r := SetAppInfo(s, k, info, o);
      s.started ==> r.s == s.(conts := s.conts[k := s.conts[k].(appInfo := Some(info))]) && r.o == Done
  {
    var c := s.conts[k];
    var s1 := s.(conts := s.conts[k := c.(appInfo := Some(info))]);
    StartContainersAddsUsers(s1, o);
  }
}
