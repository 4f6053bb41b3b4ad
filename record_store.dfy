/** The container table of the application server: one row per container,
    unique by pubkey and by name, with upsert-on-name semantics that touch
    only the deployment columns, point updates and deletes that fail when
    the pubkey has no row, and the mapping from a row back to the record
    the rest of the server works with. */
module RecordStore {
  import opened Common
  import Hex

  datatype ContainerState = Waiting | Deployed | Paused

  /** A value of a container's `env` object: only strings are accepted by
      the runtime, anything else is kept as an opaque non-string. */
  datatype EnvValue = Str(s: string) | NonString

  /** The `env` object as its `Object.keys` order of entries. A JavaScript
      object never repeats a key; the model only carries this value through
      and never builds one, so it does not restate that constraint. */
  type Env = seq<(string, EnvValue)>

  /** The record the server keeps in memory for each container. `docker`
      and `paymentHash` are the empty string when unset (JavaScript treats
      both alike); `upgrade` is held in memory only, the table has no
      column for it. */
  datatype DBContainer = DBContainer(
    id: int,
    pubkey: string,
    seckey: seq<byte>,
    token: string,
    adminPubkey: Option<string>,
    portsFrom: int,
    name: string,
    docker: string,
    units: int,
    isBuiltin: bool,
    env: Option<Env>,
    state: ContainerState,
    paymentHash: string,
    uptimeCount: int,
    uptimePaid: int,
    balance: int,
    upgrade: string)

  /** One stored row. `seckey` is hex text; `env` stands for the JSON text of
      the object (absent for the empty string the column defaults to). */
  datatype Row = Row(
    id: nat,
    pubkey: string,
    seckey: string,
    token: string,
    adminPubkey: string,
    portsFrom: int,
    name: string,
    docker: string,
    units: int,
    uptimeCount: int,
    uptimePaid: int,
    isBuiltin: int,
    env: Option<Env>,
    state: ContainerState,
    paymentHash: string,
    balance: int)

  /** `recToContainer`: a row read back as a record, or the parse error of its key. */
  function RecToContainer(r: Row): (c: Result<DBContainer>)
    ensures c.Ok? <==> Hex.IsHexText(r.seckey)
    ensures c.Ok? ==> Hex.BytesToHex(c.value.seckey) == r.seckey || Hex.HexToBytes(r.seckey) == Ok(c.value.seckey)
    ensures c.Ok? ==> c.value.isBuiltin == (r.isBuiltin > 0)
    ensures c.Ok? ==> (c.value.adminPubkey.None? <==> r.adminPubkey == "")
    ensures c.Ok? ==> c.value.upgrade == ""
    ensures c.Ok? ==> c.value.pubkey == r.pubkey && c.value.name == r.name && c.value.state == r.state
  {
    Hex.HexToBytesAccepts(r.seckey);
    match Hex.HexToBytes(r.seckey)
    case Err(m) => Err(m)
    case Ok(key) =>
      Ok(DBContainer(
        id := r.id,
        pubkey := r.pubkey,
        seckey := key,
        token := r.token,
        adminPubkey := if r.adminPubkey == "" then None else Some(r.adminPubkey),
        portsFrom := r.portsFrom,
        name := r.name,
        docker := r.docker,
        units := r.units,
        isBuiltin := r.isBuiltin > 0,
        env := r.env,
        state := r.state,
        paymentHash := r.paymentHash,
        uptimeCount := r.uptimeCount,
        uptimePaid := r.uptimePaid,
        balance := r.balance,
        upgrade := ""))
  }

  /** The row the insert branch of `upsertContainer` writes; the columns it
      does not list take their defaults. */
  function InsertRow(id: nat, c: DBContainer): Row
  {
    Row(
      id := id,
      pubkey := c.pubkey,
      seckey := Hex.BytesToHex(c.seckey),
      token := c.token,
      adminPubkey := if c.adminPubkey.Some? then c.adminPubkey.value else "",
      portsFrom := c.portsFrom,
      name := c.name,
      docker := c.docker,
      units := c.units,
      uptimeCount := 0,
      uptimePaid := 0,
      isBuiltin := if c.isBuiltin then 1 else 0,
      env := c.env,
      state := c.state,
      paymentHash := c.paymentHash,
      balance := 0)
  }

  /** The conflict branch of `upsertContainer`: the five columns it sets. */
  function ConflictUpdate(r: Row, c: DBContainer): Row
  {
    r.(portsFrom := c.portsFrom, docker := c.docker, units := c.units, env := c.env, state := c.state)
  }

  /** The conflict branch keeps the key, token, builtin flag, payment hash,
      counters and balance of the existing row. */
  lemma ConflictKeeps(r: Row, c: DBContainer)
    ensures var u := ConflictUpdate(r, c);
      u.id == r.id && u.pubkey == r.pubkey && u.seckey == r.seckey && u.token == r.token
      && u.adminPubkey == r.adminPubkey && u.name == r.name && u.isBuiltin == r.isBuiltin
      && u.paymentHash == r.paymentHash && u.uptimeCount == r.uptimeCount
      && u.uptimePaid == r.uptimePaid && u.balance == r.balance
    ensures var u := ConflictUpdate(r, c);
      u.portsFrom == c.portsFrom && u.docker == c.docker && u.units == c.units && u.env == c.env && u.state == c.state
  {
  }

  /** What a freshly inserted record reads back as: itself with the new id,
      zero counters and balance, an empty admin pubkey dropped and no
      upgrade policy. */
  function Reloaded(id: nat, c: DBContainer): DBContainer
  {
    c.(id := id, uptimeCount := 0, uptimePaid := 0, balance := 0, upgrade := "",
       adminPubkey := if c.adminPubkey == Some("") then None else c.adminPubkey)
  }

  lemma InsertRoundTrip(id: nat, c: DBContainer)
    ensures RecToContainer(InsertRow(id, c)) == Ok(Reloaded(id, c))
  {
    Hex.HexRoundTrip(c.seckey);
    Hex.BytesToHexIsHex(c.seckey);
  }

  /** The pubkey of the first row in `order` whose name is `name`. */
  function NameOwner(rows: map<string, Row>, order: seq<string>, name: string): (r: Option<string>)
    requires forall i :: 0 <= i < |order| ==> order[i] in rows
    ensures r.Some? ==> r.value in order && rows[r.value].name == name
    ensures r.None? ==> forall i :: 0 <= i < |order| ==> rows[order[i]].name != name
  {
    if order == [] then None
    else if rows[order[0]].name == name then Some(order[0])
    else NameOwner(rows, order[1..], name)
  }

  /** `order` without `k`. */
  function Without(order: seq<string>, k: string): (r: seq<string>)
    ensures forall x :: x in r <==> x in order && x != k
    ensures |r| <= |order|
  {
    if order == [] then []
    else if order[0] == k then Without(order[1..], k)
    else [order[0]] + Without(order[1..], k)
  }

  lemma {:induction false} WithoutDistinct(order: seq<string>, k: string)
    requires Distinct(order)
    ensures Distinct(Without(order, k))
  {
    if order != [] {
      WithoutDistinct(order[1..], k);
      assert Distinct(order[1..]) by {
        forall i, j | 0 <= i < j < |order[1..]| ensures order[1..][i] != order[1..][j] {
          assert order[1..][i] == order[i + 1] && order[1..][j] == order[j + 1];
        }
      }
      assert order[0] !in order[1..] by {
        forall i | 0 <= i < |order[1..]| ensures order[1..][i] != order[0] {
          assert order[1..][i] == order[i + 1];
        }
      }
    }
  }

  predicate Distinct(s: seq<string>)
  {
    forall i, j :: 0 <= i < j < |s| ==> s[i] != s[j]
  }

  /** The table invariant: rows keyed by their pubkey (the unique pubkey
      index), names unique (the unique name index), `order` the pubkeys in
      row-id order, and every key column hex text. */
  ghost predicate TableValid(rows: map<string, Row>, order: seq<string>, nextId: nat)
  {
    (forall k :: k in rows ==> rows[k].pubkey == k && rows[k].id < nextId && Hex.IsHexText(rows[k].seckey))
    && (forall k1, k2 :: k1 in rows && k2 in rows && rows[k1].name == rows[k2].name ==> k1 == k2)
    && Distinct(order)
    && (forall i :: 0 <= i < |order| ==> order[i] in rows)
    && (forall k :: k in rows ==> k in order)
  }

  /** The records of the rows `order` names, in that order. */
  function Records(rows: map<string, Row>, order: seq<string>): (r: seq<DBContainer>)
    requires forall i :: 0 <= i < |order| ==> order[i] in rows && rows[order[i]].pubkey == order[i] && Hex.IsHexText(rows[order[i]].seckey)
    ensures |r| == |order|
    ensures forall i :: 0 <= i < |r| ==> r[i].pubkey == order[i] && Ok(r[i]) == RecToContainer(rows[order[i]])
  {
    if order == [] then []
    else [RecToContainer(rows[order[0]]).value] + Records(rows, order[1..])
  }

  /** The record of the row named `name`, or none. */
  function NamedRecord(rows: map<string, Row>, order: seq<string>, name: string): (r: Option<DBContainer>)
    requires forall i :: 0 <= i < |order| ==> order[i] in rows
    requires forall k :: k in rows ==> k in order && rows[k].pubkey == k && Hex.IsHexText(rows[k].seckey)
    ensures r.None? <==> forall k :: k in rows ==> rows[k].name != name
    ensures r.Some? ==> r.value.name == name && r.value.pubkey in rows
    ensures r.Some? ==> Ok(r.value) == RecToContainer(rows[r.value.pubkey])
  {
    match NameOwner(rows, order, name)
    case None =>
      assert forall k :: k in rows ==> rows[k].name != name by {
        forall k | k in rows ensures rows[k].name != name {
          var i :| 0 <= i < |order| && order[i] == k;
        }
      }
      None
    case Some(k) =>
      Hex.HexToBytesAccepts(rows[k].seckey);
      Some(RecToContainer(rows[k]).value)
  }

  const UniquePubkeyError: string := "UNIQUE constraint failed: containers.pubkey"

  /** A point update keeps both unique indexes when it leaves the key
      columns, the name and the id of the row alone. */
  lemma PointUpdateKeepsTable(rows: map<string, Row>, order: seq<string>, nextId: nat, k: string, r: Row)
    requires TableValid(rows, order, nextId) && k in rows
    requires r == rows[k].(docker := r.docker, units := r.units, uptimeCount := r.uptimeCount,
      uptimePaid := r.uptimePaid, state := r.state, paymentHash := r.paymentHash, balance := r.balance)
    ensures TableValid(rows[k := r], order, nextId)
  {
  }

  /** A delete keeps both unique indexes and the row order. */
  lemma DeleteKeepsTable(rows: map<string, Row>, order: seq<string>, nextId: nat, k: string)
    requires TableValid(rows, order, nextId) && k in rows
    ensures TableValid(rows - {k}, Without(order, k), nextId)
  {
    WithoutDistinct(order, k);
    var kept := Without(order, k);
    forall i | 0 <= i < |kept| ensures kept[i] in rows - {k} {
      assert kept[i] in kept;
    }
  }

  /** The table after an `upsertContainer`, and its outcome. */
  datatype Upserted = Upserted(rows: map<string, Row>, order: seq<string>, nextId: nat, o: Outcome)

  /** `upsertContainer` on the table's values: a name conflict rewrites the
      owner's deployment columns, a new name is inserted last unless its
      pubkey already has a row. Both unique indexes still hold afterwards. */
  function Upsert(rows: map<string, Row>, order: seq<string>, nextId: nat, c: DBContainer): (r: Upserted)
    requires TableValid(rows, order, nextId)
    ensures TableValid(r.rows, r.order, r.nextId)
    ensures r.o.Fail? ==> r.rows == rows && r.order == order && r.nextId == nextId
    ensures r.o.Done? ==> r.rows.Keys == rows.Keys + {c.pubkey} || (r.rows.Keys == rows.Keys && c.pubkey !in rows)
  {
    match NameOwner(rows, order, c.name)
    case Some(k) =>
      ConflictPreservesTable(rows, order, nextId, k, c);
      Upserted(rows[k := ConflictUpdate(rows[k], c)], order, nextId, Done)
    case None =>
      if c.pubkey in rows then Upserted(rows, order, nextId, Fail(UniquePubkeyError))
      else
        assert forall k :: k in rows ==> rows[k].name != c.name by {
          forall k | k in rows ensures rows[k].name != c.name {
            var i :| 0 <= i < |order| && order[i] == k;
          }
        }
        InsertPreservesTable(rows, order, nextId, c);
        Upserted(rows[c.pubkey := InsertRow(nextId, c)], order + [c.pubkey], nextId + 1, Done)
  }

  /** A name conflict rewrites one row in place: both unique indexes and
      the row order still hold. */
  lemma ConflictPreservesTable(rows: map<string, Row>, order: seq<string>, nextId: nat, k: string, c: DBContainer)
    requires TableValid(rows, order, nextId) && k in rows && rows[k].name == c.name
    ensures TableValid(rows[k := ConflictUpdate(rows[k], c)], order, nextId)
  {
  }

  /** Inserting a row whose pubkey and name are both new keeps both unique
      indexes, and the row joins the order last with the next id. */
  lemma InsertPreservesTable(rows: map<string, Row>, order: seq<string>, nextId: nat, c: DBContainer)
    requires TableValid(rows, order, nextId) && c.pubkey !in rows
    requires forall k :: k in rows ==> rows[k].name != c.name
    ensures TableValid(rows[c.pubkey := InsertRow(nextId, c)], order + [c.pubkey], nextId + 1)
  {
    Hex.BytesToHexIsHex(c.seckey);
    assert Distinct(order + [c.pubkey]) by {
      assert forall i :: 0 <= i < |order| ==> order[i] != c.pubkey;
    }
  }

  class DB {
    var rows: map<string, Row>
    var order: seq<string>
    var nextId: nat

    ghost predicate Valid()
      reads this
    {
      TableValid(rows, order, nextId)
    }

    /** A new, empty table. */
    constructor ()
      ensures Valid() && rows == map[] && order == []
    {
      rows := map[];
      order := [];
      nextId := 1;
    }

    /** `getNamedContainer`: the record named `name`, or none. */
    function GetNamedContainer(name: string): (r: Option<DBContainer>)
      reads this
      requires Valid()
      ensures r.None? <==> forall k :: k in rows ==> rows[k].name != name
      ensures r.Some? ==> r.value.name == name && r.value.pubkey in rows
      ensures r == NamedRecord(rows, order, name)
    {
      NamedRecord(rows, order, name)
    }

    /** `listContainers`: every record, in row-id order. */
    function ListContainers(): (r: seq<DBContainer>)
      reads this
      requires Valid()
      ensures |r| == |order|
      ensures forall i :: 0 <= i < |r| ==> r[i].pubkey == order[i] && Ok(r[i]) == RecToContainer(rows[order[i]])
    {
      Records(rows, order)
    }

    /** `upsertContainer`: insert under a new name; on an existing name update
        only ports, docker, units, env and state of that row; a new name with
        a pubkey that already has a row violates the pubkey index. */
    method UpsertContainer(c: DBContainer) returns (o: Outcome)
      requires Valid()
      modifies this
      ensures Valid()
      ensures Upserted(rows, order, nextId, o) == Upsert(old(rows), old(order), old(nextId), c)
      ensures match NameOwner(old(rows), old(order), c.name)
        case Some(k) =>
          o == Done && rows == old(rows)[k := ConflictUpdate(old(rows)[k], c)]
          && order == old(order) && nextId == old(nextId)
        case None =>
          if c.pubkey in old(rows) then
            o == Fail(UniquePubkeyError) && rows == old(rows) && order == old(order) && nextId == old(nextId)
          else
            o == Done && rows == old(rows)[c.pubkey := InsertRow(old(nextId), c)]
            && order == old(order) + [c.pubkey] && nextId == old(nextId) + 1
    {
      var owner := NameOwner(rows, order, c.name);
      if owner.Some? {
        var k := owner.value;
        ConflictPreservesTable(rows, order, nextId, k, c);
        rows := rows[k := ConflictUpdate(rows[k], c)];
        return Done;
      }
      if c.pubkey in rows {
        return Fail(UniquePubkeyError);
      }
      assert forall k :: k in rows ==> rows[k].name != c.name by {
        forall k | k in rows ensures rows[k].name != c.name {
          var i :| 0 <= i < |order| && order[i] == k;
        }
      }
      InsertPreservesTable(rows, order, nextId, c);
      rows := rows[c.pubkey := InsertRow(nextId, c)];
      order := order + [c.pubkey];
      nextId := nextId + 1;
      o := Done;
    }

    method SetContainerState(pubkey: string, state: ContainerState) returns (o: Outcome)
      requires Valid()
      modifies this
      ensures Valid() && order == old(order) && nextId == old(nextId)
      ensures pubkey in old(rows) ==> o == Done && rows == old(rows)[pubkey := old(rows)[pubkey].(state := state)]
      ensures pubkey !in old(rows) ==> o == Fail("Failed to set container state") && rows == old(rows)
    {
      if pubkey !in rows {
        return Fail("Failed to set container state");
      }
      rows := rows[pubkey := rows[pubkey].(state := state)];
      o := Done;
    }

    method SetContainerPaymentHash(pubkey: string, paymentHash: string) returns (o: Outcome)
      requires Valid()
      modifies this
      ensures Valid() && order == old(order) && nextId == old(nextId)
      ensures pubkey in old(rows) ==> o == Done && rows == old(rows)[pubkey := old(rows)[pubkey].(paymentHash := paymentHash)]
      ensures pubkey !in old(rows) ==> o == Fail("Failed to set container payment_hash") && rows == old(rows)
    {
      if pubkey !in rows {
        return Fail("Failed to set container payment_hash");
      }
      rows := rows[pubkey := rows[pubkey].(paymentHash := paymentHash)];
      o := Done;
    }

    method SetContainerUptimePaid(pubkey: string, uptimePaid: int) returns (o: Outcome)
      requires Valid()
      modifies this
      ensures Valid() && order == old(order) && nextId == old(nextId)
      ensures pubkey in old(rows) ==> o == Done && rows == old(rows)[pubkey := old(rows)[pubkey].(uptimePaid := uptimePaid)]
      ensures pubkey !in old(rows) ==> o == Fail("Failed to set container uptime_paid") && rows == old(rows)
    {
      if pubkey !in rows {
        return Fail("Failed to set container uptime_paid");
      }
      rows := rows[pubkey := rows[pubkey].(uptimePaid := uptimePaid)];
      o := Done;
    }

    /** The source reports a missing row here with the uptime_paid message too. */
    method SetContainerUptimeCount(pubkey: string, uptimeCount: int) returns (o: Outcome)
      requires Valid()
      modifies this
      ensures Valid() && order == old(order) && nextId == old(nextId)
      ensures pubkey in old(rows) ==> o == Done && rows == old(rows)[pubkey := old(rows)[pubkey].(uptimeCount := uptimeCount)]
      ensures pubkey !in old(rows) ==> o == Fail("Failed to set container uptime_paid") && rows == old(rows)
    {
      if pubkey !in rows {
        return Fail("Failed to set container uptime_paid");
      }
      rows := rows[pubkey := rows[pubkey].(uptimeCount := uptimeCount)];
      o := Done;
    }

    method SetContainerBalance(pubkey: string, balance: int) returns (o: Outcome)
      requires Valid()
      modifies this
      ensures Valid() && order == old(order) && nextId == old(nextId)
      ensures pubkey in old(rows) ==> o == Done && rows == old(rows)[pubkey := old(rows)[pubkey].(balance := balance)]
      ensures pubkey !in old(rows) ==> o == Fail("Failed to set container balance") && rows == old(rows)
    {
      if pubkey !in rows {
        return Fail("Failed to set container balance");
      }
      rows := rows[pubkey := rows[pubkey].(balance := balance)];
      o := Done;
    }

    /** The point update the upgrade commit calls; the table code it
        would live in does not define it, so it is modelled on the pattern
        of the other setters. */
    method SetContainerDockerUri(pubkey: string, docker: string) returns (o: Outcome)
      requires Valid()
      modifies this
      ensures Valid() && order == old(order) && nextId == old(nextId)
      ensures pubkey in old(rows) ==> o == Done && rows == old(rows)[pubkey := old(rows)[pubkey].(docker := docker)]
      ensures pubkey !in old(rows) ==> o == Fail("Failed to set container docker") && rows == old(rows)
    {
      if pubkey !in rows {
        return Fail("Failed to set container docker");
      }
      rows := rows[pubkey := rows[pubkey].(docker := docker)];
      o := Done;
    }

    method DeleteContainer(pubkey: string) returns (o: Outcome)
      requires Valid()
      modifies this
      ensures Valid() && nextId == old(nextId)
      ensures pubkey in old(rows) ==> o == Done && rows == old(rows) - {pubkey} && order == Without(old(order), pubkey)
      ensures pubkey !in old(rows) ==> o == Fail("Failed to delete container") && rows == old(rows) && order == old(order)
    {
      if pubkey !in rows {
        return Fail("Failed to delete container");
      }
      WithoutDistinct(order, pubkey);
      var kept := Without(order, pubkey);
      assert forall i :: 0 <= i < |kept| ==> kept[i] in order && kept[i] != pubkey;
      rows := rows - {pubkey};
      order := kept;
      o := Done;
    }
  }
}
