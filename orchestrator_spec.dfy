/** The application server's state and the one-container steps its
    background loops and handlers take, as functions of a snapshot of that
    state. The wallet-connect client, the container runtime and the clock
    are oracles; a `Snap` holds the in-memory containers in their map
    order, the cache of wallet clients and the container table. */
module OrchestratorSpec {
  import opened Common
  import Consts
  import RecordStore

  type Record = RecordStore.DBContainer
  type Row = RecordStore.Row
  type State = RecordStore.ContainerState

  /** What a container's app reports about itself; only its pubkey matters here. */
  datatype AppInfo = AppInfo(pubkey: Option<string>)

  /** The container object the server keeps per pubkey: its record, the last
      app info it reported, its upgrade flag and the wallet it was attached to. */
  datatype Cont = Cont(info: Record, appInfo: Option<AppInfo>, upgrading: bool, walletPubkey: Option<string>)

  /** A wallet-connect client: the wallet it talks to and the key it acts as. */
  datatype Client = Client(walletPubkey: string, pubkey: string)

  datatype Snap = Snap(
    conts: map<string, Cont>,
    order: seq<string>,
    clients: map<string, Client>,
    rows: map<string, Row>,
    dbOrder: seq<string>,
    nextId: nat,
    started: bool)

  /** The container map's invariant: its insertion order lists every key
      once and no other, and every container sits under its own pubkey. */
  ghost predicate Keyed(conts: map<string, Cont>, order: seq<string>)
  {
    RecordStore.Distinct(order)
    && (forall k :: k in conts <==> k in order)
    && (forall k :: k in conts ==> conts[k].info.pubkey == k)
  }

  /** Replacing a container by one with the same pubkey keeps the invariant. */
  lemma KeyedReplace(conts: map<string, Cont>, order: seq<string>, k: string, c: Cont)
    requires Keyed(conts, order) && k in conts && c.info.pubkey == k
    ensures Keyed(conts[k := c], order)
  {
  }

  /** `Map.set` of a container under its own pubkey keeps the invariant: a
      new key joins the end of the order. */
  lemma KeyedPut(conts: map<string, Cont>, order: seq<string>, k: string, c: Cont)
    requires Keyed(conts, order) && c.info.pubkey == k
    ensures Keyed(conts[k := c], if k in conts then order else order + [k])
  {
    if k !in conts {
      assert RecordStore.Distinct(order + [k]) by {
        forall i, j | 0 <= i < j < |order + [k]| ensures (order + [k])[i] != (order + [k])[j] {
          if j == |order| {
            assert (order + [k])[i] == order[i];
          } else {
            assert (order + [k])[i] == order[i] && (order + [k])[j] == order[j];
          }
        }
      }
    }
  }

  /** `Map.delete` keeps the invariant. */
  lemma KeyedRemove(conts: map<string, Cont>, order: seq<string>, k: string)
    requires Keyed(conts, order)
    ensures Keyed(conts - {k}, RecordStore.Without(order, k))
  {
    RecordStore.WithoutDistinct(order, k);
  }

  /** The answer to one charge attempt: the invoice was paid, the payer's
      wallet reported `INSUFFICIENT_BALANCE`, or the attempt failed some
      other way (and is retried). */
  datatype PayAnswer = Paid | InsufficientBalance | PayFailed

  /** The answer of an invoice lookup. */
  datatype Lookup = Settled | Open(expiresAt: int) | NotFound | LookupFailed

  /** Whether a loop body ran to its end, let an exception escape, or was
      still retrying when the payment answers ran out. */
  datatype Status = Running | Crashed(msg: string) | Stalled

  /** The outside world for one pass: the service key's pubkey, the runtime's
      `changeState`, the wallets' balances, invoice lookups, the wallet's
      `addPubkey` and `makeInvoice` (for a pubkey and an amount, giving the
      payment hash) and the clock. */
  datatype Oracles = Oracles(
    service: string,
    change: (Cont, State) -> Outcome,
    balanceOf: string -> Result<int>,
    lookup: string -> Lookup,
    addPubkey: string -> Outcome,
    invoice: (string, int) -> Result<string>,
    now: int)

  datatype Step = Step(s: Snap, o: Outcome)
  datatype Run = Run(s: Snap, status: Status, ok: bool, answers: seq<PayAnswer>)

  function StatusOf(o: Outcome): (st: Status)
    ensures st.Running? <==> o.Done?
  {
    if o.Done? then Running else Crashed(o.msg)
  }

  // ---------------------------------------------------------------------
  // Prices and capacity

  /** `getAmountMsat` for one interval. */
  function AmountMsat(info: Record): (m: int)
    ensures info.units >= 0 ==> m >= 0
  {
    info.units * Consts.SatsPerUnitPerInterval * 1000
  }

  predicate HasEnoughBalance(info: Record)
  {
    AmountMsat(info) <= info.balance
  }

  /** The units of all in-memory containers. */
  function UsedUnits(conts: map<string, Cont>, order: seq<string>): (u: int)
  {
    if order == [] then 0
    else
      var last := order[|order| - 1];
      UsedUnits(conts, order[..|order| - 1]) + (if last in conts then conts[last].info.units else 0)
  }

  /** `imageSize > units * DISK_PER_UNIT_MB * 1024 * 1024 * 0.8` in integers. */
  predicate ImageTooBig(imageSize: int, units: int)
  {
    5 * imageSize > 4 * units * Consts.DiskPerUnitMb * 1024 * 1024
  }

  // ---------------------------------------------------------------------
  // Ports

  function PortsInUse(conts: map<string, Cont>): (ps: set<int>)
    ensures forall k :: k in conts ==> conts[k].info.portsFrom in ps
    ensures forall p :: p in ps ==> exists k :: k in conts && conts[k].info.portsFrom == p
  {
    set k | k in conts :: conts[k].info.portsFrom
  }

  /** A start of a port range: `MIN_PORTS_FROM` plus a multiple of
      `PORTS_PER_CONTAINER`. */
  predicate OnGrid(p: int)
  {
    p >= Consts.MinPortsFrom && (p - Consts.MinPortsFrom) % Consts.PortsPerContainer == 0
  }

  /** `p` is the least range start no container uses. */
  ghost predicate LeastFree(ps: set<int>, p: int)
  {
    OnGrid(p) && p !in ps && forall q :: OnGrid(q) && q < p ==> q in ps
  }

  /** Two different range starts on the grid begin ranges that do not overlap. */
  lemma GridRangesDisjoint(p: int, q: int)
    requires OnGrid(p) && OnGrid(q) && p != q
    ensures p + Consts.PortsPerContainer <= q || q + Consts.PortsPerContainer <= p
  {
    var i := (p - Consts.MinPortsFrom) / Consts.PortsPerContainer;
    var j := (q - Consts.MinPortsFrom) / Consts.PortsPerContainer;
    assert p == Consts.MinPortsFrom + i * Consts.PortsPerContainer;
    assert q == Consts.MinPortsFrom + j * Consts.PortsPerContainer;
    assert i != j;
    if i < j {
      assert i + 1 <= j;
    } else {
      assert j + 1 <= i;
    }
  }

  // ---------------------------------------------------------------------
  // Looking containers up

  /** The first container in map order whose record has this name. */
  function FirstNamed(conts: map<string, Cont>, order: seq<string>, name: string): (r: Option<string>)
    ensures r.Some? ==> r.value in conts && conts[r.value].info.name == name && r.value in order
    ensures r.None? ==> forall i :: 0 <= i < |order| && order[i] in conts ==> conts[order[i]].info.name != name
  {
    if order == [] then None
    else if order[0] in conts && conts[order[0]].info.name == name then Some(order[0])
    else FirstNamed(conts, order[1..], name)
  }

  /** `getContainerByToken`: the first container in map order with this token. */
  function ContainerByToken(conts: map<string, Cont>, order: seq<string>, token: string): (r: Option<string>)
    ensures r.Some? ==> r.value in conts && conts[r.value].info.token == token && r.value in order
    ensures r.None? ==> forall i :: 0 <= i < |order| && order[i] in conts ==> conts[order[i]].info.token != token
  {
    if order == [] then None
    else if order[0] in conts && conts[order[0]].info.token == token then Some(order[0])
    else ContainerByToken(conts, order[1..], token)
  }

  /** `getWalletPubkey`: the app pubkey of the built-in wallet container. */
  function WalletPubkey(conts: map<string, Cont>, order: seq<string>): (r: Result<string>)
    ensures var f := FirstNamed(conts, order, Consts.WalletName);
      (r.Ok? <==> f.Some? && conts[f.value].appInfo.Some? && conts[f.value].appInfo.value.pubkey.Some?
                  && conts[f.value].appInfo.value.pubkey.value != "")
    ensures r.Ok? ==> r.value != ""
    ensures FirstNamed(conts, order, Consts.WalletName).None? ==> r == Err("No builtin wallet")
  {
    match FirstNamed(conts, order, Consts.WalletName)
    case None => Err("No builtin wallet")
    case Some(k) =>
      var ai := conts[k].appInfo;
      if ai.None? || ai.value.pubkey.None? || ai.value.pubkey.value == "" then Err("Wallet not ready yet")
      else Ok(ai.value.pubkey.value)
  }

  datatype Nwc = Nwc(client: Result<Client>, clients: map<string, Client>)

  /** `getNWCForKey` for the key whose pubkey is `pubkey`: the cached client,
      or a new one for the current wallet, which is then cached. */
  function NwcFor(s: Snap, pubkey: string): (r: Nwc)
  {
    if pubkey in s.clients then Nwc(Ok(s.clients[pubkey]), s.clients)
    else
      match WalletPubkey(s.conts, s.order)
      case Err(m) => Nwc(Err(m), s.clients)
      case Ok(w) =>
        var c := Client(w, pubkey);
        Nwc(Ok(c), s.clients[pubkey := c])
  }

  /** The cache only grows, never replaces an entry, and a cached key gets
      its cached client back; a new client is for the current wallet and
      the requested key. */
  lemma NwcForCaches(s: Snap, pubkey: string)
    ensures var r := NwcFor(s, pubkey);
      (forall j :: j in s.clients ==> j in r.clients && r.clients[j] == s.clients[j])
      && (pubkey in s.clients ==> r.client == Ok(s.clients[pubkey]) && r.clients == s.clients)
      && (r.client.Ok? ==> pubkey in r.clients && r.clients[pubkey] == r.client.value)
      && (r.client.Ok? && pubkey !in s.clients ==> r.client.value.pubkey == pubkey)
      && (r.client.Err? ==> r.clients == s.clients && pubkey !in s.clients)
      && (pubkey !in s.clients && r.client.Ok? ==> WalletPubkey(s.conts, s.order) == Ok(r.client.value.walletPubkey))
      && r.clients.Keys <= s.clients.Keys + {pubkey}
  {
  }

  // ---------------------------------------------------------------------
  // Container steps

  /** `pause`/`deploy`: the container changes state, then the row records it. */
  function MoveTo(s: Snap, k: string, st: State, o: Oracles): (r: Step)
    requires k in s.conts
  {
    var c := s.conts[k];
    match o.change(c, st)
    case Fail(m) => Step(s, Fail(m))
    case Done =>
      var s1 := s.(conts := s.conts[k := c.(info := c.info.(state := st))]);
      if c.info.pubkey in s.rows then
        Step(s1.(rows := s.rows[c.info.pubkey := s.rows[c.info.pubkey].(state := st)]), Done)
      else Step(s1, Fail("Failed to set container state"))
  }

  /** `updateBalance`: read the wallet's balance and record it if it changed. */
  function UpdateBalance(s: Snap, k: string, o: Oracles): (r: Step)
    requires k in s.conts
    ensures k in r.s.conts && r.s.conts.Keys == s.conts.Keys
    ensures r.s.started == s.started && r.s.order == s.order
    ensures r.s.conts[k].info == s.conts[k].info.(balance := r.s.conts[k].info.balance)
  {
    var c := s.conts[k];
    var n := NwcFor(s, c.info.pubkey);
    var s1 := s.(clients := n.clients);
    if n.client.Err? then Step(s1, Fail(n.client.msg))
    else
      match o.balanceOf(c.info.pubkey)
      case Err(m) => Step(s1, Fail(m))
      case Ok(b) =>
        if b == c.info.balance then Step(s1, Done)
        else
          var s2 := s1.(conts := s.conts[k := c.(info := c.info.(balance := b))]);
          if c.info.pubkey in s.rows then
            Step(s2.(rows := s.rows[c.info.pubkey := s.rows[c.info.pubkey].(balance := b)]), Done)
          else Step(s2, Fail("Failed to set container balance"))
  }

  /** One paid interval: the counter moves on and the row records it when it
      exists (a missing row throws inside the retried block). */
  function Extend(s: Snap, k: string): (t: Snap)
    requires k in s.conts
    ensures k in t.conts && t.conts.Keys == s.conts.Keys
  {
    var c := s.conts[k];
    var paid := c.info.uptimePaid + Consts.ChargeInterval;
    var s1 := s.(conts := s.conts[k := c.(info := c.info.(uptimePaid := paid))]);
    if c.info.pubkey in s.rows then s1.(rows := s.rows[c.info.pubkey := s.rows[c.info.pubkey].(uptimePaid := paid)])
    else s1
  }

  datatype Attempt = Retry(s: Snap) | Refused(u: Step)

  /** The two wallet clients a charge attempt needs, the service's and the
      container's; `ok` once both exist. Only the cache changes. */
  datatype Clients = Clients(s: Snap, ok: bool)

  function PayClients(s: Snap, k: string, o: Oracles): (r: Clients)
    requires k in s.conts
    ensures r.s == s.(clients := r.s.clients)
  {
    var p := NwcFor(s, o.service);
    var s1 := s.(clients := p.clients);
    if p.client.Err? then Clients(s1, false)
    else
      var q := NwcFor(s1, s.conts[k].info.pubkey);
      Clients(s1.(clients := q.clients), q.client.Ok?)
  }

  /** What the payment answer makes of an attempt: any failure but
      `INSUFFICIENT_BALANCE` is retried, a paid invoice extends the paid
      counter, and `INSUFFICIENT_BALANCE` refreshes the balance and gives up. */
  function Answer(s: Snap, k: string, a: PayAnswer, o: Oracles): (r: Attempt)
    requires k in s.conts
    ensures r.Retry? ==> k in r.s.conts && r.s.conts.Keys == s.conts.Keys
    ensures r.Refused? ==> k in r.u.s.conts && r.u.s.conts.Keys == s.conts.Keys
    ensures r.Refused? <==> a == InsufficientBalance
    ensures r.Refused? ==> (r.u.s.conts[k].info.uptimePaid == s.conts[k].info.uptimePaid
      && r.u.s.conts[k].info.uptimeCount == s.conts[k].info.uptimeCount)
  {
    match a
    case PayFailed => Retry(s)
    case Paid => Retry(Extend(s, k))
    case InsufficientBalance => Refused(UpdateBalance(s, k, o))
  }

  /** One charge attempt: both wallet clients are needed (a missing one is
      retried), then the answer decides. */
  function TryPay(s: Snap, k: string, a: PayAnswer, o: Oracles): (r: Attempt)
    requires k in s.conts
    ensures r.Retry? ==> k in r.s.conts && r.s.conts.Keys == s.conts.Keys
    ensures r.Refused? ==> k in r.u.s.conts && r.u.s.conts.Keys == s.conts.Keys
    ensures r.Refused? ==> a == InsufficientBalance
    ensures r.Refused? ==> (r.u.s.conts[k].info.uptimePaid == s.conts[k].info.uptimePaid
      && r.u.s.conts[k].info.uptimeCount == s.conts[k].info.uptimeCount)
  {
    var p := PayClients(s, k, o);
    if !p.ok then Retry(p.s) else Answer(p.s, k, a, o)
  }

  /** The retry loop of `charge`: one answer per attempt until the paid
      counter passes the uptime counter. */
  function ChargeLoop(s: Snap, k: string, answers: seq<PayAnswer>, o: Oracles): (r: Run)
    requires k in s.conts
    ensures k in r.s.conts && r.s.conts.Keys == s.conts.Keys && |r.answers| <= |answers|
    decreases |answers|
  {
    var c := s.conts[k];
    if c.info.uptimePaid > c.info.uptimeCount then Run(s, Running, true, answers)
    else if answers == [] then Run(s, Stalled, false, answers)
    else
      match TryPay(s, k, answers[0], o)
      case Retry(t) => ChargeLoop(t, k, answers[1..], o)
      case Refused(u) => Run(u.s, StatusOf(u.o), false, answers[1..])
  }

  /** `charge`: nothing for a built-in container, otherwise the retry loop. */
  function Charge(s: Snap, k: string, answers: seq<PayAnswer>, o: Oracles): (r: Run)
    requires k in s.conts
    ensures k in r.s.conts && r.s.conts.Keys == s.conts.Keys
  {
    if s.conts[k].info.isBuiltin then Run(s, Running, false, answers)
    else ChargeLoop(s, k, answers, o)
  }

  datatype Checked = Checked(s: Snap, settled: bool)

  /** `checkWaitingPayment`: look the launch invoice up; settled means deploy,
      expired means remove from memory and from the table, anything else
      (no hash, no wallet, a failed or missing lookup, not yet expired)
      leaves things as they are. */
  function CheckWaiting(s: Snap, k: string, o: Oracles): (r: Checked)
    requires k in s.conts
    ensures r.settled ==> r.s.conts == s.conts
    ensures r.s.conts.Keys == s.conts.Keys || r.s.conts.Keys == s.conts.Keys - {k}
  {
    var c := s.conts[k];
    if c.info.paymentHash == "" then Checked(s, false)
    else
      var n := NwcFor(s, c.info.pubkey);
      var s1 := s.(clients := n.clients);
      if n.client.Err? then Checked(s1, false)
      else
        match o.lookup(c.info.paymentHash)
        case Settled => Checked(s1, true)
        case Open(expiresAt) =>
          if expiresAt < o.now then
            var s2 := s1.(conts := s.conts - {k}, order := RecordStore.Without(s.order, k));
            if c.info.pubkey in s.rows then
              Checked(s2.(rows := s.rows - {c.info.pubkey}, dbOrder := RecordStore.Without(s.dbOrder, c.info.pubkey)), false)
            else Checked(s2, false)
          else Checked(s1, false)
        case NotFound => Checked(s1, false)
        case LookupFailed => Checked(s1, false)
  }

  /** One container's turn in the charge monitor. */
  function Dispatch(s: Snap, k: string, answers: seq<PayAnswer>, o: Oracles): (r: Run)
    requires k in s.conts
  {
    var c := s.conts[k];
    if c.info.isBuiltin || c.upgrading then Run(s, Running, false, answers)
    else if c.info.state == RecordStore.Deployed then
      if c.info.uptimePaid <= c.info.uptimeCount then
        var ch := Charge(s, k, answers, o);
        if ch.status != Running || ch.ok then ch
        else
          var m := MoveTo(ch.s, k, RecordStore.Paused, o);
          Run(m.s, StatusOf(m.o), false, ch.answers)
      else Run(s, Running, false, answers)
    else if c.info.state == RecordStore.Paused then
      if c.info.uptimePaid > c.info.uptimeCount then
        var m := MoveTo(s, k, RecordStore.Deployed, o);
        Run(m.s, StatusOf(m.o), true, answers)
      else if HasEnoughBalance(c.info) then
        var ch := Charge(s, k, answers, o);
        if ch.status != Running || !ch.ok then ch
        else
          var m := MoveTo(ch.s, k, RecordStore.Deployed, o);
          Run(m.s, StatusOf(m.o), true, ch.answers)
      else Run(s, Running, false, answers)
    else
      var w := CheckWaiting(s, k, o);
      if w.settled then
        var m := MoveTo(w.s, k, RecordStore.Deployed, o);
        Run(m.s, StatusOf(m.o), true, answers)
      else Run(w.s, Running, false, answers)
  }

  datatype Tick = Tick(s: Snap, status: Status, answers: seq<PayAnswer>)

  /** One pass of the charge monitor over `keys`, the map order at its start;
      a key deleted meanwhile is not visited, an escaping exception or a
      stalled charge ends the pass. */
  function ChargeTick(s: Snap, keys: seq<string>, answers: seq<PayAnswer>, o: Oracles): (r: Tick)
    decreases |keys|
  {
    if keys == [] then Tick(s, Running, answers)
    else if keys[0] !in s.conts then ChargeTick(s, keys[1..], answers, o)
    else
      var d := Dispatch(s, keys[0], answers, o);
      if d.status != Running then Tick(d.s, d.status, d.answers)
      else ChargeTick(d.s, keys[1..], d.answers, o)
  }

  /** One key of the pass: a deployed container that is not built in
      counts one more interval, in memory and then in its row; a missing
      row throws after the in-memory count has moved on. */
  function UptimeOne(s: Snap, k: string): (r: Step)
  {
    if k !in s.conts || s.conts[k].info.isBuiltin || s.conts[k].info.state != RecordStore.Deployed then
      Step(s, Done)
    else
      var c := s.conts[k];
      var n := c.info.uptimeCount + 1;
      var s1 := s.(conts := s.conts[k := c.(info := c.info.(uptimeCount := n))]);
      if c.info.pubkey !in s.rows then Step(s1, Fail("Failed to set container uptime_paid"))
      else Step(s1.(rows := s.rows[c.info.pubkey := s.rows[c.info.pubkey].(uptimeCount := n)]), Done)
  }

  /** One pass of the uptime monitor: every deployed non-built-in container
      counts one more second and the row records it; a missing row throws
      out of the loop. */
  function UptimeTick(s: Snap, keys: seq<string>): (r: Step)
    decreases |keys|
  {
    if keys == [] then Step(s, Done)
    else
      var r := UptimeOne(s, keys[0]);
      if r.o.Fail? then r else UptimeTick(r.s, keys[1..])
  }

  // ---------------------------------------------------------------------
  // What the steps change

  /** `t` differs from `s` at most in the container `k` and in the caches
      and the table. */
  ghost predicate OnlyTouches(s: Snap, t: Snap, k: string)
  {
    t.order == s.order && t.started == s.started && t.conts.Keys == s.conts.Keys
    && forall j :: j in s.conts && j != k ==> t.conts[j] == s.conts[j]
  }

  /** `d` is `c` charged for some whole intervals, with a possibly
      refreshed balance. */
  ghost predicate ChargedFrom(c: Cont, d: Cont)
  {
    d == c.(info := c.info.(uptimePaid := d.info.uptimePaid, balance := d.info.balance))
    && d.info.uptimePaid >= c.info.uptimePaid
    && (d.info.uptimePaid - c.info.uptimePaid) % Consts.ChargeInterval == 0
  }

  lemma OnlyTouchesTransitive(s: Snap, m: Snap, t: Snap, k: string)
    requires OnlyTouches(s, m, k) && OnlyTouches(m, t, k)
    ensures OnlyTouches(s, t, k)
  {
  }

  lemma ChargedFromTransitive(c: Cont, d: Cont, e: Cont)
    requires ChargedFrom(c, d) && ChargedFrom(d, e)
    ensures ChargedFrom(c, e)
  {
    var x := d.info.uptimePaid - c.info.uptimePaid;
    var y := e.info.uptimePaid - d.info.uptimePaid;
    assert x % Consts.ChargeInterval == 0 && y % Consts.ChargeInterval == 0;
    assert (x + y) % Consts.ChargeInterval == 0;
  }

  lemma ExtendFacts(s: Snap, k: string)
    requires k in s.conts
    ensures var t := Extend(s, k);
      OnlyTouches(s, t, k) && ChargedFrom(s.conts[k], t.conts[k])
  {
    var c := s.conts[k];
    var t := Extend(s, k);
    assert t.conts[k] == c.(info := c.info.(uptimePaid := c.info.uptimePaid + Consts.ChargeInterval));
  }

  lemma UpdateBalanceFacts(s: Snap, k: string, o: Oracles)
    requires k in s.conts
    ensures var u := UpdateBalance(s, k, o);
      OnlyTouches(s, u.s, k) && ChargedFrom(s.conts[k], u.s.conts[k])
      && u.s.conts[k].info.uptimePaid == s.conts[k].info.uptimePaid
  {
    var c := s.conts[k];
    var n := NwcFor(s, c.info.pubkey);
    var u := UpdateBalance(s, k, o);
    if n.client.Ok? && o.balanceOf(c.info.pubkey).Ok? && o.balanceOf(c.info.pubkey).value != c.info.balance {
      var d := c.(info := c.info.(balance := o.balanceOf(c.info.pubkey).value));
      assert u.s.conts == s.conts[k := d];
      assert ChargedFrom(c, d);
    } else {
      assert u.s.conts == s.conts;
      assert ChargedFrom(c, c);
    }
  }

  lemma TryPayFacts(s: Snap, k: string, a: PayAnswer, o: Oracles)
    requires k in s.conts
    ensures match TryPay(s, k, a, o)
      case Retry(t) => OnlyTouches(s, t, k) && ChargedFrom(s.conts[k], t.conts[k])
      case Refused(u) =>
        (OnlyTouches(s, u.s, k) && ChargedFrom(s.conts[k], u.s.conts[k])
         && u.s.conts[k].info.uptimePaid == s.conts[k].info.uptimePaid && a == InsufficientBalance)
  {
    var c := s.conts[k];
    var p := PayClients(s, k, o);
    assert ChargedFrom(c, c);
    if p.ok {
      if a == Paid {
        ExtendFacts(p.s, k);
      } else if a == InsufficientBalance {
        UpdateBalanceFacts(p.s, k, o);
      }
    }
  }

  /** `charge`'s loop changes only the charged container, and only its
      paid counter (by whole intervals, never down) and its balance. */
  lemma {:induction false} ChargeLoopTouches(s: Snap, k: string, answers: seq<PayAnswer>, o: Oracles)
    requires k in s.conts
    ensures var r := ChargeLoop(s, k, answers, o);
      OnlyTouches(s, r.s, k) && ChargedFrom(s.conts[k], r.s.conts[k])
    decreases |answers|
  {
    var c := s.conts[k];
    if c.info.uptimePaid > c.info.uptimeCount || answers == [] {
      assert ChargedFrom(c, c);
    } else {
      TryPayFacts(s, k, answers[0], o);
      match TryPay(s, k, answers[0], o)
      case Retry(t) =>
        ChargeLoopTouches(t, k, answers[1..], o);
        var r := ChargeLoop(t, k, answers[1..], o);
        OnlyTouchesTransitive(s, t, r.s, k);
        ChargedFromTransitive(s.conts[k], t.conts[k], r.s.conts[k]);
      case Refused(u) =>
    }
  }

  /** `charge` reports success exactly when the paid counter has passed the
      uptime counter; it consumes a prefix of the answers, all of them when
      it stalls, and gives up only right after an `INSUFFICIENT_BALANCE`. */
  lemma {:induction false} ChargeLoopAnswers(s: Snap, k: string, answers: seq<PayAnswer>, o: Oracles)
    requires k in s.conts
    ensures var r := ChargeLoop(s, k, answers, o);
      r.answers == answers[|answers| - |r.answers|..]
    ensures var r := ChargeLoop(s, k, answers, o);
      r.ok <==> r.status == Running && r.s.conts[k].info.uptimePaid > r.s.conts[k].info.uptimeCount
    ensures var r := ChargeLoop(s, k, answers, o);
      r.status == Stalled ==> r.answers == []
    ensures var r := ChargeLoop(s, k, answers, o);
      !r.ok && r.status != Stalled ==> |r.answers| < |answers| && answers[|answers| - |r.answers| - 1] == InsufficientBalance
    decreases |answers|
  {
    var c := s.conts[k];
    if c.info.uptimePaid > c.info.uptimeCount || answers == [] {
    } else {
      var a := TryPay(s, k, answers[0], o);
      if a.Retry? {
        ChargeLoopAnswers(a.s, k, answers[1..], o);
        ChargeLoopRetry(s, k, answers, o);
      } else {
        assert answers[1..] == answers[|answers| - |answers[1..]|..];
      }
    }
  }

  /** A retried attempt leaves the rest of the loop to the later answers. */
  lemma ChargeLoopRetry(s: Snap, k: string, answers: seq<PayAnswer>, o: Oracles)
    requires k in s.conts && answers != []
    requires s.conts[k].info.uptimePaid <= s.conts[k].info.uptimeCount
    requires TryPay(s, k, answers[0], o).Retry?
    requires var r := ChargeLoop(TryPay(s, k, answers[0], o).s, k, answers[1..], o);
      r.answers == answers[1..][|answers| - 1 - |r.answers|..]
    ensures ChargeLoop(s, k, answers, o) == ChargeLoop(TryPay(s, k, answers[0], o).s, k, answers[1..], o)
    ensures var r := ChargeLoop(s, k, answers, o);
      r.answers == answers[|answers| - |r.answers|..]
  {
    var r := ChargeLoop(TryPay(s, k, answers[0], o).s, k, answers[1..], o);
    assert answers[1..][|answers| - 1 - |r.answers|..] == answers[|answers| - |r.answers|..];
  }


  /** In a pass of the monitor: no container appears, none is re-created as
      waiting, only waiting ones disappear, paid counters never go down,
      uptime counters and built-in flags stay, and built-in containers are
      left exactly as they were. */
  ghost predicate Grows(s: Snap, t: Snap)
  {
    t.started == s.started
    && (forall j :: j in t.conts ==>
         (j in s.conts
          && t.conts[j].info.uptimePaid >= s.conts[j].info.uptimePaid
          && t.conts[j].info.uptimeCount == s.conts[j].info.uptimeCount
          && t.conts[j].info.isBuiltin == s.conts[j].info.isBuiltin
          && (t.conts[j].info.state == RecordStore.Waiting ==> s.conts[j].info.state == RecordStore.Waiting)))
    && (forall j :: j in s.conts && j !in t.conts ==> s.conts[j].info.state == RecordStore.Waiting)
    && (forall j :: j in s.conts && s.conts[j].info.isBuiltin ==> j in t.conts && t.conts[j] == s.conts[j])
  }

  lemma GrowsTransitive(s: Snap, m: Snap, t: Snap)
    requires Grows(s, m) && Grows(m, t)
    ensures Grows(s, t)
  {
  }

  lemma MoveToFacts(s: Snap, k: string, st: State, o: Oracles)
    requires k in s.conts
    ensures var m := MoveTo(s, k, st, o);
      var moved := s.conts[k].(info := s.conts[k].info.(state := st));
      OnlyTouches(s, m.s, k)
      && (m.s.conts[k] == s.conts[k] || m.s.conts[k] == moved)
      && (m.o.Done? ==> m.s.conts[k] == moved)
  {
    var c := s.conts[k];
    var m := MoveTo(s, k, st, o);
    if o.change(c, st).Done? {
      assert m.s.conts == s.conts[k := c.(info := c.info.(state := st))];
    } else {
      assert m.s == s;
    }
  }

  lemma CheckWaitingFacts(s: Snap, k: string, o: Oracles)
    requires k in s.conts
    ensures var w := CheckWaiting(s, k, o);
      w.s.started == s.started && w.s.conts.Keys <= s.conts.Keys
      && (forall j :: j in w.s.conts ==> w.s.conts[j] == s.conts[j])
      && (forall j :: j in s.conts && j != k ==> j in w.s.conts)
  {
  }

  /** The container-level part of `Grows`. */
  ghost predicate Grew(c: Cont, d: Cont)
  {
    d.info.uptimePaid >= c.info.uptimePaid
    && d.info.uptimeCount == c.info.uptimeCount
    && d.info.isBuiltin == c.info.isBuiltin
    && (d.info.state == RecordStore.Waiting ==> c.info.state == RecordStore.Waiting)
    && (c.info.isBuiltin ==> d == c)
  }

  lemma TouchGrows(s: Snap, t: Snap, k: string)
    requires k in s.conts && OnlyTouches(s, t, k) && Grew(s.conts[k], t.conts[k])
    ensures Grows(s, t)
  {
  }

  lemma WaitingGrows(s: Snap, k: string, o: Oracles)
    requires k in s.conts && s.conts[k].info.state == RecordStore.Waiting && !s.conts[k].info.isBuiltin
    ensures var w := CheckWaiting(s, k, o);
      Grows(s, w.s) && (forall j :: j in s.conts && j != k ==> j in w.s.conts && w.s.conts[j] == s.conts[j])
      && (w.settled ==> var m := MoveTo(w.s, k, RecordStore.Deployed, o);
                        Grows(s, m.s) && forall j :: j in s.conts && j != k ==> j in m.s.conts && m.s.conts[j] == s.conts[j])
  {
    CheckWaitingFacts(s, k, o);
    var w := CheckWaiting(s, k, o);
    if w.settled {
      MoveGrows(w.s, k, RecordStore.Deployed, o);
      GrowsTransitive(s, w.s, MoveTo(w.s, k, RecordStore.Deployed, o).s);
    }
  }

  lemma ChargeGrows(s: Snap, k: string, answers: seq<PayAnswer>, o: Oracles)
    requires k in s.conts && !s.conts[k].info.isBuiltin
    ensures var ch := Charge(s, k, answers, o);
      Grows(s, ch.s) && OnlyTouches(s, ch.s, k)
  {
    ChargeLoopTouches(s, k, answers, o);
    TouchGrows(s, Charge(s, k, answers, o).s, k);
  }

  lemma MoveGrows(s: Snap, k: string, st: State, o: Oracles)
    requires k in s.conts && !s.conts[k].info.isBuiltin && st != RecordStore.Waiting
    ensures var m := MoveTo(s, k, st, o);
      Grows(s, m.s) && OnlyTouches(s, m.s, k)
  {
    MoveToFacts(s, k, st, o);
    TouchGrows(s, MoveTo(s, k, st, o).s, k);
  }

  /** One container's turn changes only that container, and within the
      bounds of `Grows`. */
  lemma DispatchGrows(s: Snap, k: string, answers: seq<PayAnswer>, o: Oracles)
    requires k in s.conts
    ensures var r := Dispatch(s, k, answers, o);
      Grows(s, r.s) && forall j :: j in s.conts && j != k ==> j in r.s.conts && r.s.conts[j] == s.conts[j]
  {
    var c := s.conts[k];
    if c.info.isBuiltin || c.upgrading {
    } else if c.info.state == RecordStore.Waiting {
      WaitingGrows(s, k, o);
    } else if c.info.uptimePaid > c.info.uptimeCount {
      if c.info.state == RecordStore.Paused {
        MoveGrows(s, k, RecordStore.Deployed, o);
      }
    } else if c.info.state == RecordStore.Paused && !HasEnoughBalance(c.info) {
    } else {
      ChargeGrows(s, k, answers, o);
      var ch := Charge(s, k, answers, o);
      var st := if c.info.state == RecordStore.Deployed then RecordStore.Paused else RecordStore.Deployed;
      MoveGrows(ch.s, k, st, o);
      var m := MoveTo(ch.s, k, st, o);
      GrowsTransitive(s, ch.s, m.s);
      OnlyTouchesTransitive(s, ch.s, m.s, k);
    }
  }

  /** A whole pass of the charge monitor stays within `Grows`. */
  lemma {:induction false} ChargeTickGrows(s: Snap, keys: seq<string>, answers: seq<PayAnswer>, o: Oracles)
    ensures Grows(s, ChargeTick(s, keys, answers, o).s)
    decreases |keys|
  {
    if keys == [] {
    } else if keys[0] !in s.conts {
      ChargeTickGrows(s, keys[1..], answers, o);
    } else {
      var d := Dispatch(s, keys[0], answers, o);
      DispatchGrows(s, keys[0], answers, o);
      if d.status == Running {
        ChargeTickGrows(d.s, keys[1..], d.answers, o);
        GrowsTransitive(s, d.s, ChargeTick(d.s, keys[1..], d.answers, o).s);
      }
    }
  }

  // ---------------------------------------------------------------------
  // The dispatch rules

  /** Built-in and upgrading containers, deployed ones that are paid for
      and paused ones that owe without the balance to pay are left alone
      and consume no payment answer. */
  lemma DispatchLeavesAlone(s: Snap, k: string, answers: seq<PayAnswer>, o: Oracles)
    requires k in s.conts
    requires var c := s.conts[k];
      c.info.isBuiltin || c.upgrading
      || (c.info.state == RecordStore.Deployed && c.info.uptimePaid > c.info.uptimeCount)
      || (c.info.state == RecordStore.Paused && c.info.uptimePaid <= c.info.uptimeCount && !HasEnoughBalance(c.info))
    ensures Dispatch(s, k, answers, o) == Run(s, Running, false, answers)
  {
  }

  /** A paused container that is already paid for is deployed without
      being charged. */
  lemma DispatchPausedCovered(s: Snap, k: string, answers: seq<PayAnswer>, o: Oracles)
    requires k in s.conts
    requires var c := s.conts[k];
      !c.info.isBuiltin && !c.upgrading && c.info.state == RecordStore.Paused && c.info.uptimePaid > c.info.uptimeCount
    ensures var r := Dispatch(s, k, answers, o);
      r.answers == answers && k in r.s.conts && r.s.conts[k].info.uptimePaid == s.conts[k].info.uptimePaid
      && (r.status == Running ==> r.s.conts[k].info.state == RecordStore.Deployed)
  {
    MoveToFacts(s, k, RecordStore.Deployed, o);
  }

  /** What a charge leaves behind when it does not stop the monitor. */
  lemma ChargeRunning(s: Snap, k: string, answers: seq<PayAnswer>, o: Oracles)
    requires k in s.conts && !s.conts[k].info.isBuiltin
    ensures var ch := Charge(s, k, answers, o);
      ch.s.conts[k].info.state == s.conts[k].info.state && |ch.answers| <= |answers|
    ensures var ch := Charge(s, k, answers, o);
      ch.status == Running ==>
        (ch.ok ==> ch.s.conts[k].info.uptimePaid > ch.s.conts[k].info.uptimeCount)
        && (!ch.ok ==> |ch.answers| < |answers| && answers[|answers| - |ch.answers| - 1] == InsufficientBalance)
  {
    ChargeLoopAnswers(s, k, answers, o);
    ChargeLoopTouches(s, k, answers, o);
  }

  /** A deployed container that owes is charged: it stays deployed once paid
      for, and is paused only after an `INSUFFICIENT_BALANCE` answer. */
  lemma DispatchDeployedOwing(s: Snap, k: string, answers: seq<PayAnswer>, o: Oracles)
    requires k in s.conts
    requires var c := s.conts[k];
      !c.info.isBuiltin && !c.upgrading && c.info.state == RecordStore.Deployed && c.info.uptimePaid <= c.info.uptimeCount
    ensures var r := Dispatch(s, k, answers, o);
      k in r.s.conts && |r.answers| <= |answers|
    ensures var r := Dispatch(s, k, answers, o);
      r.status == Running ==>
        var d := r.s.conts[k];
        (d.info.state == RecordStore.Deployed && d.info.uptimePaid > d.info.uptimeCount)
        || (d.info.state == RecordStore.Paused && |r.answers| < |answers|
            && answers[|answers| - |r.answers| - 1] == InsufficientBalance)
  {
    ChargeRunning(s, k, answers, o);
    var ch := Charge(s, k, answers, o);
    MoveToFacts(ch.s, k, RecordStore.Paused, o);
  }

  /** A paused container that owes and has the balance is charged: it is
      deployed once paid for and stays paused after an
      `INSUFFICIENT_BALANCE` answer. */
  lemma DispatchPausedOwing(s: Snap, k: string, answers: seq<PayAnswer>, o: Oracles)
    requires k in s.conts
    requires var c := s.conts[k];
      !c.info.isBuiltin && !c.upgrading && c.info.state == RecordStore.Paused
      && c.info.uptimePaid <= c.info.uptimeCount && HasEnoughBalance(c.info)
    ensures var r := Dispatch(s, k, answers, o);
      k in r.s.conts && |r.answers| <= |answers|
    ensures var r := Dispatch(s, k, answers, o);
      r.status == Running ==>
        var d := r.s.conts[k];
        (d.info.state == RecordStore.Deployed && d.info.uptimePaid > d.info.uptimeCount)
        || (d.info.state == RecordStore.Paused && |r.answers| < |answers|
            && answers[|answers| - |r.answers| - 1] == InsufficientBalance)
  {
    ChargeRunning(s, k, answers, o);
    var ch := Charge(s, k, answers, o);
    MoveToFacts(ch.s, k, RecordStore.Deployed, o);
  }

  /** A waiting container is deployed only when its invoice lookup says
      settled, and is deployed then if its wallet client, the runtime and
      its row allow it. */
  lemma DispatchWaitingSettled(s: Snap, k: string, answers: seq<PayAnswer>, o: Oracles)
    requires k in s.conts
    requires var c := s.conts[k]; !c.info.isBuiltin && !c.upgrading && c.info.state == RecordStore.Waiting
    ensures var r := Dispatch(s, k, answers, o);
      var c := s.conts[k];
      r.answers == answers
      && ((k in r.s.conts && r.s.conts[k].info.state == RecordStore.Deployed)
          ==> (c.info.paymentHash != "" && o.lookup(c.info.paymentHash) == Settled))
      && ((c.info.paymentHash != "" && o.lookup(c.info.paymentHash) == Settled && NwcFor(s, c.info.pubkey).client.Ok?
           && o.change(c, RecordStore.Deployed) == Done && c.info.pubkey in s.rows)
          ==> (r.status == Running && k in r.s.conts && r.s.conts[k].info.state == RecordStore.Deployed))
  {
    CheckWaitingFacts(s, k, o);
    var w := CheckWaiting(s, k, o);
    if w.settled {
      MoveToFacts(w.s, k, RecordStore.Deployed, o);
    }
  }

  /** Past its expiry an unsettled launch invoice removes the container from
      memory and its row from the table; a failed or missing lookup changes
      neither. */
  lemma DispatchWaitingExpired(s: Snap, k: string, answers: seq<PayAnswer>, o: Oracles)
    requires k in s.conts
    requires var c := s.conts[k]; !c.info.isBuiltin && !c.upgrading && c.info.state == RecordStore.Waiting
    ensures var r := Dispatch(s, k, answers, o);
      var c := s.conts[k];
      ((c.info.paymentHash != "" && NwcFor(s, c.info.pubkey).client.Ok?
        && o.lookup(c.info.paymentHash).Open? && o.lookup(c.info.paymentHash).expiresAt < o.now)
       ==> (k !in r.s.conts && c.info.pubkey !in r.s.rows && r.status == Running))
      && ((o.lookup(c.info.paymentHash) == NotFound || o.lookup(c.info.paymentHash) == LookupFailed)
          ==> (r.s.conts == s.conts && r.s.rows == s.rows && r.s.order == s.order && r.status == Running))
  {
  }

  // ---------------------------------------------------------------------
  // The uptime monitor

  /** Counted by the uptime monitor: deployed and not built in. */
  predicate Counted(c: Cont)
  {
    !c.info.isBuiltin && c.info.state == RecordStore.Deployed
  }

  function Bumped(c: Cont): Cont
  {
    c.(info := c.info.(uptimeCount := c.info.uptimeCount + 1))
  }

  /** The tail of distinct keys is distinct and misses the head. */
  lemma DistinctTail(keys: seq<string>)
    requires keys != [] && RecordStore.Distinct(keys)
    ensures RecordStore.Distinct(keys[1..]) && keys[0] !in keys[1..]
    ensures forall j :: j in keys <==> j == keys[0] || j in keys[1..]
  {
    forall i, j | 0 <= i < j < |keys[1..]| ensures keys[1..][i] != keys[1..][j] {
      assert keys[1..][i] == keys[i + 1] && keys[1..][j] == keys[j + 1];
    }
    forall i | 0 <= i < |keys[1..]| ensures keys[1..][i] != keys[0] {
      assert keys[1..][i] == keys[i + 1];
    }
    assert keys == [keys[0]] + keys[1..];
  }

  /** The state after counting the container under `k`. */
  function CountOne(s: Snap, k: string): Snap
    requires k in s.conts && k in s.rows
  {
    s.(conts := s.conts[k := Bumped(s.conts[k])],
       rows := s.rows[k := s.rows[k].(uptimeCount := s.conts[k].info.uptimeCount + 1)])
  }

  /** A pass of the uptime monitor touches only the containers and the rows. */
  lemma {:induction false} UptimeTickFrame(s: Snap, keys: seq<string>)
    ensures UptimeTick(s, keys).s.(conts := s.conts, rows := s.rows) == s
    decreases |keys|
  {
    if keys != [] {
      var k := keys[0];
      if k !in s.conts || !Counted(s.conts[k]) {
        UptimeTickFrame(s, keys[1..]);
      } else if s.conts[k].info.pubkey in s.rows {
        var c := s.conts[k];
        var s2 := s.(conts := s.conts[k := Bumped(c)],
                     rows := s.rows[c.info.pubkey := s.rows[c.info.pubkey].(uptimeCount := c.info.uptimeCount + 1)]);
        assert UptimeTick(s, keys) == UptimeTick(s2, keys[1..]);
        UptimeTickFrame(s2, keys[1..]);
      }
    }
  }

  /** When every container sits under its own pubkey and has its row, a
      pass over distinct keys runs to its end and adds exactly one to the
      uptime of each counted container it visits, changing no other
      container. */
  lemma {:induction false} UptimeTickConts(s: Snap, keys: seq<string>)
    requires RecordStore.Distinct(keys)
    requires forall k :: k in s.conts ==> s.conts[k].info.pubkey == k && k in s.rows
    ensures var r := UptimeTick(s, keys);
      r.o == Done && r.s.conts.Keys == s.conts.Keys
      && forall k :: k in s.conts ==>
           r.s.conts[k] == (if k in keys && Counted(s.conts[k]) then Bumped(s.conts[k]) else s.conts[k])
    decreases |keys|
  {
    if keys != [] {
      var k := keys[0];
      DistinctTail(keys);
      if k !in s.conts || !Counted(s.conts[k]) {
        UptimeTickConts(s, keys[1..]);
      } else {
        var s2 := CountOne(s, k);
        assert UptimeTick(s, keys) == UptimeTick(s2, keys[1..]);
        UptimeTickConts(s2, keys[1..]);
      }
    }
  }

  /** Under the same conditions, the pass writes the new uptime of each
      counted container it visits into that container's row, and changes
      no other row and no other column. */
  lemma {:induction false} UptimeTickRows(s: Snap, keys: seq<string>)
    requires RecordStore.Distinct(keys)
    requires forall k :: k in s.conts ==> s.conts[k].info.pubkey == k && k in s.rows
    ensures var r := UptimeTick(s, keys);
      r.s.rows.Keys == s.rows.Keys
      && forall p :: p in s.rows ==>
           r.s.rows[p] == (if p in keys && p in s.conts && Counted(s.conts[p])
                           then s.rows[p].(uptimeCount := s.conts[p].info.uptimeCount + 1)
                           else s.rows[p])
    decreases |keys|
  {
    if keys != [] {
      var k := keys[0];
      DistinctTail(keys);
      if k !in s.conts || !Counted(s.conts[k]) {
        UptimeTickRows(s, keys[1..]);
      } else {
        var s2 := CountOne(s, k);
        assert UptimeTick(s, keys) == UptimeTick(s2, keys[1..]);
        UptimeTickRows(s2, keys[1..]);
      }
    }
  }

  /** `t` is `s` after one more uptime interval for each counted container
      under one of `keys`, in memory and in that container's row, with no
      other container, row, column or part of the state changed. */
  ghost predicate UptimeCounted(s: Snap, t: Snap, keys: seq<string>)
  {
    t.conts.Keys == s.conts.Keys && t.rows.Keys == s.rows.Keys
    && (forall k :: k in s.conts ==>
         t.conts[k] == (if k in keys && Counted(s.conts[k]) then Bumped(s.conts[k]) else s.conts[k]))
    && (forall p :: p in s.rows ==>
         t.rows[p] == (if p in keys && p in s.conts && Counted(s.conts[p])
                       then s.rows[p].(uptimeCount := s.conts[p].info.uptimeCount + 1)
                       else s.rows[p]))
    && t.(conts := s.conts, rows := s.rows) == s
  }

  /** The whole pass over distinct keys, when every container sits under
      its own pubkey and has its row: it runs to its end and counts exactly
      one more interval for each counted container it visits. */
  lemma UptimeTickCounts(s: Snap, keys: seq<string>)
    requires RecordStore.Distinct(keys)
    requires forall k :: k in s.conts ==> s.conts[k].info.pubkey == k && k in s.rows
    ensures var r := UptimeTick(s, keys); r.o == Done && UptimeCounted(s, r.s, keys)
  {
    UptimeTickConts(s, keys);
    UptimeTickRows(s, keys);
    UptimeTickFrame(s, keys);
  }
}
