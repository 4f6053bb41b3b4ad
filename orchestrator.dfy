/** The application server object: the containers it runs keyed by pubkey
    (with the map's insertion order), its cache of wallet clients, the gate
    that opens once the stored containers are loaded, and the container
    table. Each method changes the object the way the source's method does
    and is proved to end in the state its step function of the snapshot
    describes; the properties of those step functions are proved beside
    them. */
module Orchestrator {
  import opened Common
  import Consts
  import RecordStore
  import opened OrchestratorSpec
  import OrchestratorStart
  import OrchestratorUpgrade
  import Releases

  class AppServer {
    var conts: map<string, Cont>
    var order: seq<string>
    var clients: map<string, Client>
    var started: bool
    const db: RecordStore.DB

    /** The state as a value, for the step functions. */
    function Snapshot(): Snap
      reads this, db
    {
      Snap(conts, order, clients, db.rows, db.order, db.nextId, started)
    }

    /** The table is well formed and the map keeps its invariant. */
    ghost predicate Valid()
      reads this, db
    {
      db.Valid() && Keyed(conts, order)
    }

    /** A server over an open table, with nothing loaded yet. */
    constructor (db: RecordStore.DB)
      requires db.Valid()
      ensures Valid() && this.db == db
      ensures conts == map[] && order == [] && clients == map[] && !started
    {
      this.db := db;
      conts := map[];
      order := [];
      clients := map[];
      started := false;
    }

    // -------------------------------------------------------------------
    // Lookups over the map in its order

    /** `[...conts.values()].find(c => c.info.name === name)`. */
    method FindNamed(name: string) returns (r: Option<string>)
      ensures r == FirstNamed(conts, order, name)
    {
      var i := 0;
      while i < |order|
        invariant 0 <= i <= |order|
        invariant FirstNamed(conts, order[i..], name) == FirstNamed(conts, order, name)
      {
        var k := order[i];
        if k in conts && conts[k].info.name == name {
          return Some(k);
        }
        assert order[i..][1..] == order[i + 1..];
        i := i + 1;
      }
      return None;
    }

    /** `getContainerByToken`. */
    method GetContainerByToken(token: string) returns (r: Option<string>)
      ensures r == ContainerByToken(conts, order, token)
    {
      var i := 0;
      while i < |order|
        invariant 0 <= i <= |order|
        invariant ContainerByToken(conts, order[i..], token) == ContainerByToken(conts, order, token)
      {
        var k := order[i];
        if k in conts && conts[k].info.token == token {
          return Some(k);
        }
        assert order[i..][1..] == order[i + 1..];
        i := i + 1;
      }
      return None;
    }

    /** `getWalletPubkey`. */
    method GetWalletPubkey() returns (r: Result<string>)
      ensures r == WalletPubkey(conts, order)
    {
      var w := FindNamed(Consts.WalletName);
      if w.None? {
        return Err("No builtin wallet");
      }
      var ai := conts[w.value].appInfo;
      if ai.None? || ai.value.pubkey.None? || ai.value.pubkey.value == "" {
        return Err("Wallet not ready yet");
      }
      return Ok(ai.value.pubkey.value);
    }

    /** The units of all in-memory containers, summed in map order. */
    method UsedUnitsNow() returns (u: int)
      ensures u == UsedUnits(conts, order)
    {
      u := 0;
      var i := 0;
      while i < |order|
        invariant 0 <= i <= |order|
        invariant u == UsedUnits(conts, order[..i])
      {
        assert order[..i + 1][..i] == order[..i];
        if order[i] in conts {
          u := u + conts[order[i]].info.units;
        }
        i := i + 1;
      }
      assert order[..i] == order;
    }

    /** `getNWCForKey` for the key whose pubkey is `pubkey`. */
    method GetNwcForKey(pubkey: string) returns (r: Result<Client>)
      modifies this
      ensures Nwc(r, clients) == NwcFor(old(Snapshot()), pubkey)
      ensures conts == old(conts) && order == old(order) && started == old(started)
    {
      if pubkey in clients {
        return Ok(clients[pubkey]);
      }
      var w := GetWalletPubkey();
      if w.Err? {
        return Err(w.msg);
      }
      var c := Client(w.value, pubkey);
      clients := clients[pubkey := c];
      return Ok(c);
    }

    // -------------------------------------------------------------------
    // State changes of one container

    /** `pause` and `deploy`. */
    method MoveTo(k: string, st: State, ext: Oracles) returns (o: Outcome)
      requires Valid() && k in conts
      modifies this, db
      ensures Valid()
      ensures Step(Snapshot(), o) == OrchestratorSpec.MoveTo(old(Snapshot()), k, st, ext)
    {
      var c := conts[k];
      o := ext.change(c, st);
      if o.Fail? {
        return;
      }
      ghost var s0 := Snapshot();
      KeyedReplace(conts, order, k, c.(info := c.info.(state := st)));
      conts := conts[k := c.(info := c.info.(state := st))];
      ghost var s1 := s0.(conts := conts);
      assert Snapshot() == s1;
      o := db.SetContainerState(c.info.pubkey, st);
      assert Snapshot() == s1.(rows := db.rows);
    }

    /** `updateBalance`. */
    method UpdateBalance(k: string, ext: Oracles) returns (o: Outcome)
      requires Valid() && k in conts
      modifies this, db
      ensures Valid()
      ensures Step(Snapshot(), o) == OrchestratorSpec.UpdateBalance(old(Snapshot()), k, ext)
    {
      var c := conts[k];
      var client := GetNwcForKey(c.info.pubkey);
      if client.Err? {
        return Fail(client.msg);
      }
      var b := ext.balanceOf(c.info.pubkey);
      if b.Err? {
        return Fail(b.msg);
      }
      if b.value == c.info.balance {
        return Done;
      }
      ghost var s0 := Snapshot();
      KeyedReplace(conts, order, k, c.(info := c.info.(balance := b.value)));
      conts := conts[k := c.(info := c.info.(balance := b.value))];
      ghost var s1 := s0.(conts := conts);
      assert Snapshot() == s1;
      o := db.SetContainerBalance(c.info.pubkey, b.value);
      assert Snapshot() == s1.(rows := db.rows);
    }

    /** The two clients a charge attempt needs. */
    method PayClients(k: string, ext: Oracles) returns (ok: bool)
      requires k in conts
      modifies this
      ensures Clients(Snapshot(), ok) == OrchestratorSpec.PayClients(old(Snapshot()), k, ext)
    {
      var parent := GetNwcForKey(ext.service);
      if parent.Err? {
        return false;
      }
      var mine := GetNwcForKey(conts[k].info.pubkey);
      return mine.Ok?;
    }

    /** A paid interval: the counter moves on and the row records it; a
        missing row throws inside the retried block and is swallowed. */
    method Extend(k: string)
      requires Valid() && k in conts
      modifies this, db
      ensures Valid()
      ensures Snapshot() == OrchestratorSpec.Extend(old(Snapshot()), k)
    {
      ghost var s0 := Snapshot();
      var c := conts[k];
      var paid := c.info.uptimePaid + Consts.ChargeInterval;
      KeyedReplace(conts, order, k, c.(info := c.info.(uptimePaid := paid)));
      conts := conts[k := c.(info := c.info.(uptimePaid := paid))];
      ghost var s1 := s0.(conts := conts);
      assert Snapshot() == s1;
      var ignored := db.SetContainerUptimePaid(c.info.pubkey, paid);
      assert Snapshot() == s1.(rows := db.rows);
    }

    /** What the payment answer makes of an attempt. */
    method Answer(k: string, a: PayAnswer, ext: Oracles) returns (refused: bool, o: Outcome)
      requires Valid() && k in conts
      modifies this, db
      ensures Valid()
      ensures var r := OrchestratorSpec.Answer(old(Snapshot()), k, a, ext);
        if refused then r == Refused(Step(Snapshot(), o)) else r == Retry(Snapshot())
    {
      match a
      case PayFailed =>
        return false, Done;
      case Paid =>
        Extend(k);
        return false, Done;
      case InsufficientBalance =>
        o := UpdateBalance(k, ext);
        return true, o;
    }

    /** One pass of the body of `charge`'s retry loop. `refused` tells the
        `INSUFFICIENT_BALANCE` answer apart, after which the loop ends with
        the outcome of the balance refresh. */
    method TryPay(k: string, a: PayAnswer, ext: Oracles) returns (refused: bool, o: Outcome)
      requires Valid() && k in conts
      modifies this, db
      ensures Valid()
      ensures var r := OrchestratorSpec.TryPay(old(Snapshot()), k, a, ext);
        if refused then r == Refused(Step(Snapshot(), o)) else r == Retry(Snapshot())
    {
      var ok := PayClients(k, ext);
      if !ok {
        return false, Done;
      }
      refused, o := Answer(k, a, ext);
    }

    /** `charge`: retry until the paid counter passes the uptime counter,
        one answer per attempt. */
    method Charge(k: string, answers: seq<PayAnswer>, ext: Oracles) returns (status: Status, ok: bool, rest: seq<PayAnswer>)
      requires Valid() && k in conts
      modifies this, db
      ensures Valid()
      ensures Run(Snapshot(), status, ok, rest) == OrchestratorSpec.Charge(old(Snapshot()), k, answers, ext)
    {
      if conts[k].info.isBuiltin {
        return Running, false, answers;
      }
      rest := answers;
      while conts[k].info.uptimePaid <= conts[k].info.uptimeCount
        invariant Valid() && k in conts
        invariant ChargeLoop(Snapshot(), k, rest, ext) == ChargeLoop(old(Snapshot()), k, answers, ext)
        decreases |rest|
      {
        if rest == [] {
          return Stalled, false, rest;
        }
        var refused, o := TryPay(k, rest[0], ext);
        if refused {
          return StatusOf(o), false, rest[1..];
        }
        rest := rest[1..];
      }
      return Running, true, rest;
    }

    /** `checkWaitingPayment`. */
    method CheckWaitingPayment(k: string, ext: Oracles) returns (settled: bool)
      requires Valid() && k in conts
      modifies this, db
      ensures Valid()
      ensures Checked(Snapshot(), settled) == CheckWaiting(old(Snapshot()), k, ext)
    {
      var c := conts[k];
      if c.info.paymentHash == "" {
        return false;
      }
      var client := GetNwcForKey(c.info.pubkey);
      if client.Err? {
        return false;
      }
      match ext.lookup(c.info.paymentHash)
      case Settled =>
        return true;
      case Open(expiresAt) =>
        if expiresAt < ext.now {
          ghost var s0 := Snapshot();
          KeyedRemove(conts, order, k);
          conts := conts - {k};
          order := RecordStore.Without(order, k);
          ghost var s1 := s0.(conts := conts, order := order);
          assert Snapshot() == s1;
          var ignored := db.DeleteContainer(c.info.pubkey);
          assert Snapshot() == s1.(rows := db.rows, dbOrder := db.order);
        }
        return false;
      case NotFound =>
        return false;
      case LookupFailed =>
        return false;
    }

    /** One container's turn in the charge monitor. */
    method Dispatch(k: string, answers: seq<PayAnswer>, ext: Oracles) returns (status: Status, ok: bool, rest: seq<PayAnswer>)
      requires Valid() && k in conts
      modifies this, db
      ensures Valid()
      ensures Run(Snapshot(), status, ok, rest) == OrchestratorSpec.Dispatch(old(Snapshot()), k, answers, ext)
    {
      var c := conts[k];
      if c.info.isBuiltin || c.upgrading {
        return Running, false, answers;
      }
      if c.info.state == RecordStore.Deployed {
        if c.info.uptimePaid <= c.info.uptimeCount {
          status, ok, rest := Charge(k, answers, ext);
          if status != Running || ok {
            return;
          }
          var o := MoveTo(k, RecordStore.Paused, ext);
          return StatusOf(o), false, rest;
        }
        return Running, false, answers;
      } else if c.info.state == RecordStore.Paused {
        if c.info.uptimePaid > c.info.uptimeCount {
          var o := MoveTo(k, RecordStore.Deployed, ext);
          return StatusOf(o), true, answers;
        } else if HasEnoughBalance(c.info) {
          status, ok, rest := Charge(k, answers, ext);
          if status != Running || !ok {
            return;
          }
          var o := MoveTo(k, RecordStore.Deployed, ext);
          return StatusOf(o), true, rest;
        }
        return Running, false, answers;
      } else {
        var settled := CheckWaitingPayment(k, ext);
        if settled {
          var o := MoveTo(k, RecordStore.Deployed, ext);
          return StatusOf(o), true, answers;
        }
        return Running, false, answers;
      }
    }

    /** The body of `chargeMonitor`'s loop: every container in the map
        order of the start of the pass, skipping those removed meanwhile. */
    method ChargeMonitorTick(answers: seq<PayAnswer>, ext: Oracles) returns (status: Status, rest: seq<PayAnswer>)
      requires Valid()
      modifies this, db
      ensures Valid()
      ensures Tick(Snapshot(), status, rest) == ChargeTick(old(Snapshot()), old(order), answers, ext)
    {
      var keys := order;
      var i := 0;
      rest := answers;
      while i < |keys|
        invariant Valid() && 0 <= i <= |keys|
        invariant ChargeTick(Snapshot(), keys[i..], rest, ext) == ChargeTick(old(Snapshot()), keys, answers, ext)
      {
        assert keys[i..][1..] == keys[i + 1..];
        var k := keys[i];
        if k in conts {
          var st, ok, r := Dispatch(k, rest, ext);
          if st != Running {
            return st, r;
          }
          rest := r;
        }
        i := i + 1;
      }
      return Running, rest;
    }

    /** One container's turn in `uptimeMonitor`: the in-memory count moves
        on before the row is written. */
    method CountUptime(k: string) returns (o: Outcome)
      requires Valid()
      modifies this, db
      ensures Valid()
      ensures Step(Snapshot(), o) == UptimeOne(old(Snapshot()), k)
    {
      if k !in conts || conts[k].info.isBuiltin || conts[k].info.state != RecordStore.Deployed {
        return Done;
      }
      var c := conts[k];
      var n := c.info.uptimeCount + 1;
      ghost var s0 := Snapshot();
      KeyedReplace(conts, order, k, c.(info := c.info.(uptimeCount := n)));
      conts := conts[k := c.(info := c.info.(uptimeCount := n))];
      ghost var s1 := s0.(conts := conts);
      assert Snapshot() == s1;
      o := db.SetContainerUptimeCount(c.info.pubkey, n);
      assert Snapshot() == s1.(rows := db.rows);
    }

    /** `uptimeMonitor`'s loop over `keys`, until a row is missing. */
    method CountUptimes(keys: seq<string>) returns (o: Outcome)
      requires Valid()
      modifies this, db
      ensures Valid()
      ensures Step(Snapshot(), o) == UptimeTick(old(Snapshot()), keys)
    {
      var i := 0;
      while i < |keys|
        invariant Valid() && 0 <= i <= |keys|
        invariant UptimeTick(Snapshot(), keys[i..]) == UptimeTick(old(Snapshot()), keys)
      {
        assert keys[i..][1..] == keys[i + 1..];
        o := CountUptime(keys[i]);
        if o.Fail? {
          return;
        }
        i := i + 1;
      }
      return Done;
    }

    /** The body of `uptimeMonitor`'s loop: a pass over the containers in
        map order. When every container has its row, it runs to its end and
        counts one more interval for exactly the deployed containers that
        are not built in, in memory and in their rows, and changes nothing
        else. */
    method UptimeMonitorTick() returns (o: Outcome)
      requires Valid()
      modifies this, db
      ensures Valid()
      ensures Step(Snapshot(), o) == UptimeTick(old(Snapshot()), old(order))
      ensures (forall k :: k in old(conts) ==> k in old(db.rows)) ==>
        o == Done && UptimeCounted(old(Snapshot()), Snapshot(), old(order))
    {
      ghost var s0 := Snapshot();
      o := CountUptimes(order);
      if forall k :: k in s0.conts ==> k in s0.rows {
        UptimeTickCounts(s0, s0.order);
      }
    }

    // -------------------------------------------------------------------
    // New containers

    /** `conts.find(c => c.info.portsFrom === p)` succeeds. */
    method PortTaken(p: int) returns (taken: bool)
      ensures taken <==> p in PortsInUse(conts)
    {
      var ks := conts.Keys;
      while ks != {}
        invariant ks <= conts.Keys
        invariant forall k :: k in conts && k !in ks ==> conts[k].info.portsFrom != p
        decreases |ks|
      {
        var k :| k in ks;
        if conts[k].info.portsFrom == p {
          return true;
        }
        ks := ks - {k};
      }
      return false;
    }

    /** `createContainerFromParams` with the generated key `g`: the port
        search steps by one range until no container uses the start. */
    method CreateContainerFromParams(p: OrchestratorStart.Params, isBuiltin: bool, g: OrchestratorStart.KeyGen)
      returns (r: Record)
      ensures r == OrchestratorStart.NewRecord(conts, p, isBuiltin, g)
    {
      var portsFrom := Consts.MinPortsFrom;
      var taken := PortTaken(portsFrom);
      while taken
        invariant taken <==> portsFrom in PortsInUse(conts)
        invariant OrchestratorStart.FreeFrom(PortsInUse(conts), portsFrom)
          == OrchestratorStart.FreeFrom(PortsInUse(conts), Consts.MinPortsFrom)
        decreases set q | q in PortsInUse(conts) && q >= portsFrom
      {
        OrchestratorStart.AboveShrinks(PortsInUse(conts), portsFrom);
        portsFrom := portsFrom + Consts.PortsPerContainer;
        taken := PortTaken(portsFrom);
      }
      r := RecordStore.DBContainer(
        id := 0,
        pubkey := g.pubkey,
        seckey := g.seckey,
        token := g.token,
        adminPubkey := None,
        portsFrom := portsFrom,
        name := if p.name == "" then g.pubkey else p.name,
        docker := p.docker,
        units := if p.units == 0 then 1 else p.units,
        isBuiltin := isBuiltin,
        env := p.env,
        state := RecordStore.Waiting,
        paymentHash := "",
        uptimeCount := 0,
        uptimePaid := 0,
        balance := 0,
        upgrade := p.upgrade);
    }

    /** `conts.set(k, c)`. */
    method Put(k: string, c: Cont)
      requires Valid() && c.info.pubkey == k
      modifies this
      ensures Valid()
      ensures Snapshot() == OrchestratorStart.Put(old(Snapshot()), k, c)
    {
      KeyedPut(conts, order, k, c);
      order := if k in conts then order else order + [k];
      conts := conts[k := c];
    }

    /** `ensureWallet` for the container `c`, which is returned with its
        wallet pubkey set when there is a wallet. */
    method EnsureWallet(c: Cont, ext: Oracles) returns (d: Cont)
      modifies this
      ensures OrchestratorStart.Wallet(clients, d) == OrchestratorStart.EnsureWallet(old(Snapshot()), c, ext)
      ensures d.info == c.info
      ensures conts == old(conts) && order == old(order) && started == old(started)
    {
      var w := GetWalletPubkey();
      if w.Err? {
        return c;
      }
      d := c.(walletPubkey := Some(w.value));
      var parent := GetNwcForKey(ext.service);
      if parent.Err? || ext.addPubkey(c.info.pubkey).Fail? {
        return;
      }
      var mine := GetNwcForKey(c.info.pubkey);
    }

    // -------------------------------------------------------------------
    // Launch

    /** The wallet set-up of a new container, its client and the invoice
        for its first interval. */
    method Invoice(info: Record, ext: Oracles) returns (c: Cont, hash: Result<string>)
      modifies this
      ensures OrchestratorStart.Invoiced(Snapshot(), c, hash) == OrchestratorStart.Invoice(old(Snapshot()), info, ext)
      ensures c.info == info
      ensures conts == old(conts) && order == old(order) && started == old(started)
    {
      c := EnsureWallet(Cont(info, None, false, None), ext);
      var client := GetNwcForKey(info.pubkey);
      if client.Err? {
        return c, Err(client.msg);
      }
      hash := ext.invoice(info.pubkey, AmountMsat(info));
    }

    /** `launch` for a request from `requester`, with `g` the generated key
        and `imageSize` the registry's answer for the image. */
    method Launch(requester: string, p: OrchestratorStart.Params, g: OrchestratorStart.KeyGen, imageSize: Result<int>, ext: Oracles)
      returns (o: Outcome, hash: string)
      requires Valid()
      modifies this, db
      ensures Valid()
      ensures OrchestratorStart.Launched(Snapshot(), o, hash)
        == OrchestratorStart.Launch(old(Snapshot()), requester, p, g, imageSize, ext)
    {
      if !started {
        return Fail("Retry later"), "";
      }
      if p.docker == "" {
        return Fail("Specify docker url"), "";
      }
      if p.units == 0 {
        return Fail("Specify units"), "";
      }
      var used := UsedUnitsNow();
      if used + p.units > Consts.TotalUnits {
        return Fail("Not enough free units"), "";
      }
      if imageSize.Err? {
        return Fail(imageSize.msg), "";
      }
      if ImageTooBig(imageSize.value, p.units) {
        return Fail("Need more units for this image"), "";
      }
      var info := CreateContainerFromParams(p, false, g);
      info := info.(adminPubkey := Some(requester));
      ghost var s0 := Snapshot();
      assert OrchestratorStart.Launch(s0, requester, p, g, imageSize, ext) == OrchestratorStart.Admit(s0, info, ext);
      var c, invoiced := Invoice(info, ext);
      if invoiced.Err? {
        return Fail(invoiced.msg), "";
      }
      c := c.(info := info.(paymentHash := invoiced.value));
      o := db.UpsertContainer(c.info);
      if o.Fail? {
        return o, "";
      }
      Put(c.info.pubkey, c);
      return Done, invoiced.value;
    }

    // -------------------------------------------------------------------
    // Start-up

    /** One entry of `startBuiltin`. */
    method StartBuiltin(p: OrchestratorStart.Params, g: OrchestratorStart.KeyGen, ext: Oracles) returns (o: Outcome)
      requires Valid()
      modifies this, db
      ensures Valid()
      ensures Step(Snapshot(), o) == OrchestratorStart.Builtin(old(Snapshot()), p, g, ext)
    {
      if p.name == "" {
        return Fail("Name not specified for builtin");
      }
      var named := db.GetNamedContainer(p.name);
      var info;
      if named.None? {
        info := CreateContainerFromParams(p, true, g);
      } else {
        info := named.value.(docker := p.docker, env := p.env, units := p.units);
      }
      info := info.(upgrade := "");
      ghost var s0 := Snapshot();
      assert info == OrchestratorStart.BuiltinRecord(s0, p, g);
      o := db.UpsertContainer(info);
      assert Step(Snapshot(), o) == OrchestratorStart.UpsertRow(s0, info);
      if o.Fail? {
        return;
      }
      Put(info.pubkey, Cont(info, None, false, None));
      o := MoveTo(info.pubkey, RecordStore.Deployed, ext);
    }

    /** `startBuiltin`: the configured entries in order, `keyFor(i)` the key
        generated for entry `i`. */
    method StartBuiltins(bs: seq<OrchestratorStart.Params>, keyFor: nat -> OrchestratorStart.KeyGen, ext: Oracles)
      returns (o: Outcome)
      requires Valid()
      modifies this, db
      ensures Valid()
      ensures Step(Snapshot(), o) == OrchestratorStart.StartBuiltins(old(Snapshot()), bs, 0, keyFor, ext)
    {
      var i := 0;
      while i < |bs|
        invariant Valid() && 0 <= i <= |bs|
        invariant OrchestratorStart.StartBuiltins(Snapshot(), bs, i, keyFor, ext)
          == OrchestratorStart.StartBuiltins(old(Snapshot()), bs, 0, keyFor, ext)
      {
        o := StartBuiltin(bs[i], keyFor(i), ext);
        if o.Fail? {
          return;
        }
        i := i + 1;
      }
      return Done;
    }

    /** One stored record in `startContainers`. */
    method LoadOne(rec: Record, ext: Oracles) returns (o: Outcome)
      requires Valid()
      modifies this, db
      ensures Valid()
      ensures Step(Snapshot(), o) == OrchestratorStart.LoadOne(old(Snapshot()), rec, ext)
    {
      var k := rec.pubkey;
      var c := Cont(rec, None, false, None);
      Put(k, c);
      ghost var s1 := Snapshot();
      var d := EnsureWallet(c, ext);
      KeyedReplace(conts, order, k, d);
      conts := conts[k := d];
      assert Snapshot() == s1.(clients := clients, conts := s1.conts[k := d]);
      o := UpdateBalance(k, ext);
      if o.Fail? {
        return;
      }
      o := Change(k, conts[k].info.state, ext);
    }

    /** `changeState` alone. */
    method Change(k: string, st: State, ext: Oracles) returns (o: Outcome)
      requires Valid() && k in conts
      modifies this
      ensures Valid()
      ensures Step(Snapshot(), o) == OrchestratorStart.Change(old(Snapshot()), k, st, ext)
    {
      var c := conts[k];
      o := ext.change(c, st);
      if o.Done? {
        KeyedReplace(conts, order, k, c.(info := c.info.(state := st)));
        conts := conts[k := c.(info := c.info.(state := st))];
      }
    }

    /** `startContainers`: open the gate, then load every stored record that
        is not a built-in, in row order. */
    method StartContainers(ext: Oracles) returns (o: Outcome)
      requires Valid()
      modifies this, db
      ensures Valid()
      ensures Step(Snapshot(), o) == OrchestratorStart.StartContainers(old(Snapshot()), ext)
    {
      started := true;
      var recs := db.ListContainers();
      assert recs == RecordStore.Records(old(db.rows), old(db.order));
      var i := 0;
      while i < |recs|
        invariant Valid() && 0 <= i <= |recs|
        invariant OrchestratorStart.LoadAll(Snapshot(), recs, i, ext)
          == OrchestratorStart.StartContainers(old(Snapshot()), ext)
      {
        if !recs[i].isBuiltin {
          o := LoadOne(recs[i], ext);
          if o.Fail? {
            return;
          }
        }
        i := i + 1;
      }
      return Done;
    }

    /** `setContainerAppInfo`. */
    method SetContainerAppInfo(k: string, info: AppInfo, ext: Oracles) returns (o: Outcome)
      requires Valid() && k in conts
      modifies this, db
      ensures Valid()
      ensures Step(Snapshot(), o) == OrchestratorStart.SetAppInfo(old(Snapshot()), k, info, ext)
    {
      var c := conts[k];
      var before := if c.appInfo.Some? then c.appInfo.value.pubkey else None;
      KeyedReplace(conts, order, k, c.(appInfo := Some(info)));
      conts := conts[k := c.(appInfo := Some(info))];
      if c.info.name == Consts.WalletName && before != info.pubkey && !started {
        o := StartContainers(ext);
      } else {
        o := Done;
      }
    }

    // -------------------------------------------------------------------
    // Upgrades

    /** `startUpgrade` and `endUpgrade`. */
    method SetUpgrading(k: string, flag: bool)
      requires Valid() && k in conts
      modifies this
      ensures Valid()
      ensures Snapshot() == OrchestratorUpgrade.SetUpgrading(old(Snapshot()), k, flag)
    {
      KeyedReplace(conts, order, k, conts[k].(upgrading := flag));
      conts := conts[k := conts[k].(upgrading := flag)];
    }

    /** `upgrade` and `rollback`. */
    method Upgrade(k: string, uri: string, ext: Oracles) returns (o: Outcome)
      requires Valid() && k in conts
      modifies this, db
      ensures Valid()
      ensures Step(Snapshot(), o) == OrchestratorUpgrade.Upgrade(old(Snapshot()), k, uri, ext)
    {
      SetUpgrading(k, true);
      o := MoveTo(k, RecordStore.Paused, ext);
      if o.Fail? {
        return;
      }
      ghost var s1 := Snapshot();
      KeyedReplace(conts, order, k, conts[k].(info := conts[k].info.(docker := uri)));
      conts := conts[k := conts[k].(info := conts[k].info.(docker := uri))];
      assert Snapshot() == OrchestratorUpgrade.SetDocker(s1, k, uri);
      o := MoveTo(k, RecordStore.Deployed, ext);
      if o.Fail? {
        return;
      }
      SetUpgrading(k, false);
    }

    /** The commit after an upgrade: the row takes the new image; a missing
        row's exception is swallowed. */
    method CommitUri(k: string, uri: string)
      requires Valid() && k in conts
      modifies db
      ensures Valid()
      ensures Snapshot() == OrchestratorUpgrade.CommitUri(old(Snapshot()), k, uri)
    {
      var ignored := db.SetContainerDockerUri(conts[k].info.pubkey, uri);
    }

    /** One candidate release of the upgrade loop. */
    method TryRelease(k: string, r: Releases.Event, ext: Oracles)
      requires Valid() && k in conts
      modifies this, db
      ensures Valid() && k in conts
      ensures Snapshot() == OrchestratorUpgrade.TryRelease(old(Snapshot()), k, r, ext)
    {
      var uri := OrchestratorUpgrade.UriOf(r);
      var o := Upgrade(k, uri, ext);
      if o.Done? {
        CommitUri(k, uri);
      }
    }

    /** One turn of the loop over the new releases: an unacceptable
        release is skipped; otherwise it is tried, and the loop stops once
        the container is no longer marked as upgrading. */
    method TryAt(k: string, rs: seq<Releases.Event>, i: nat, ext: Oracles, reg: OrchestratorUpgrade.Registry)
      returns (stop: bool)
      requires Valid() && k in conts && i < |rs|
      modifies this, db
      ensures Valid() && k in conts
      ensures stop ==> Snapshot() == OrchestratorUpgrade.TryReleases(old(Snapshot()), k, rs, i, ext, reg)
      ensures !stop ==>
        OrchestratorUpgrade.TryReleases(Snapshot(), k, rs, i + 1, ext, reg)
        == OrchestratorUpgrade.TryReleases(old(Snapshot()), k, rs, i, ext, reg)
    {
      if !OrchestratorUpgrade.Acceptable(reg, rs[i]) {
        return false;
      }
      TryRelease(k, rs[i], ext);
      return !conts[k].upgrading;
    }

    /** The loop over the new releases, newest first. */
    method TryReleases(k: string, rs: seq<Releases.Event>, ext: Oracles, reg: OrchestratorUpgrade.Registry)
      requires Valid() && k in conts
      modifies this, db
      ensures Valid()
      ensures Snapshot() == OrchestratorUpgrade.TryReleases(old(Snapshot()), k, rs, 0, ext, reg)
    {
      var i := 0;
      while i < |rs|
        invariant Valid() && 0 <= i <= |rs| && k in conts
        invariant OrchestratorUpgrade.TryReleases(Snapshot(), k, rs, i, ext, reg)
          == OrchestratorUpgrade.TryReleases(old(Snapshot()), k, rs, 0, ext, reg)
      {
        var stop := TryAt(k, rs, i, ext, reg);
        if stop {
          return;
        }
        i := i + 1;
      }
    }

    /** One container's turn in the upgrade monitor. */
    method UpgradeOne(k: string, ext: Oracles, reg: OrchestratorUpgrade.Registry)
      requires Valid() && k in conts
      modifies this, db
      ensures Valid()
      ensures Snapshot() == OrchestratorUpgrade.UpgradeOne(old(Snapshot()), k, ext, reg)
    {
      var c := conts[k];
      if !OrchestratorUpgrade.Eligible(c) {
        return;
      }
      var rs := reg.releases(c.info.docker);
      if rs.Err? {
        return;
      }
      TryReleases(k, rs.value, ext, reg);
      if conts[k].upgrading {
        var ignored := Upgrade(k, c.info.docker, ext);
      }
    }

    /** The body of `upgradeMonitor`'s loop. */
    method UpgradeMonitorTick(ext: Oracles, reg: OrchestratorUpgrade.Registry)
      requires Valid()
      modifies this, db
      ensures Valid()
      ensures Snapshot() == OrchestratorUpgrade.UpgradeTick(old(Snapshot()), old(order), ext, reg)
    {
      var keys := order;
      var i := 0;
      while i < |keys|
        invariant Valid() && 0 <= i <= |keys|
        invariant OrchestratorUpgrade.UpgradeTick(Snapshot(), keys[i..], ext, reg)
          == OrchestratorUpgrade.UpgradeTick(old(Snapshot()), keys, ext, reg)
      {
        assert keys[i..][1..] == keys[i + 1..];
        if keys[i] in conts {
          UpgradeOne(keys[i], ext, reg);
        }
        i := i + 1;
      }
    }
  }
}
