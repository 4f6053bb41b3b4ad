/** The older container table: the same unique pubkey and name indexes and
    upsert-on-name, with a `deployed` flag and a `paid_until` column instead
    of a state and uptime counters, and a maximum-port query. */
module LegacyStore {
  import opened Common
  import Hex
  import RecordStore

  datatype DBContainer = DBContainer(
    id: int,
    pubkey: string,
    seckey: seq<byte>,
    token: string,
    adminPubkey: Option<string>,
    portsFrom: int,
    name: string,
    docker: string,
    units: int,
    paidUntil: int,
    isBuiltin: bool,
    env: Option<RecordStore.Env>,
    deployed: bool)

  datatype Row = Row(
    id: nat,
    pubkey: string,
    seckey: string,
    token: string,
    adminPubkey: string,
    portsFrom: int,
    name: string,
    docker: string,
    units: int,
    paidUntil: int,
    isBuiltin: int,
    env: Option<RecordStore.Env>,
    deployed: int)

  function RecToContainer(r: Row): (c: Result<DBContainer>)
    ensures c.Ok? <==> Hex.IsHexText(r.seckey)
    ensures c.Ok? ==> c.value.deployed == (r.deployed > 0) && c.value.isBuiltin == (r.isBuiltin > 0)
    ensures c.Ok? ==> (c.value.adminPubkey.None? <==> r.adminPubkey == "")
    ensures c.Ok? ==> c.value.paidUntil == r.paidUntil && c.value.pubkey == r.pubkey && c.value.name == r.name
  {
    Hex.HexToBytesAccepts(r.seckey);
    match Hex.HexToBytes(r.seckey)
    case Err(m) => Err(m)
    case Ok(key) =>
      Ok(DBContainer(
        id := r.id,
        pubkey := r.pubkey,
        seckey := key,
        token := r.token,
        adminPubkey := if r.adminPubkey == "" then None else Some(r.adminPubkey),
        portsFrom := r.portsFrom,
        name := r.name,
        docker := r.docker,
        units := r.units,
        paidUntil := r.paidUntil,
        isBuiltin := r.isBuiltin > 0,
        env := r.env,
        deployed := r.deployed > 0))
  }

  /** The inserted row; `paid_until` is not written and takes its default 0. */
  function InsertRow(id: nat, c: DBContainer): Row
  {
    Row(
      id := id,
      pubkey := c.pubkey,
      seckey := Hex.BytesToHex(c.seckey),
      token := c.token,
      adminPubkey := if c.adminPubkey.Some? then c.adminPubkey.value else "",
      portsFrom := c.portsFrom,
      name := c.name,
      docker := c.docker,
      units := c.units,
      paidUntil := 0,
      isBuiltin := if c.isBuiltin then 1 else 0,
      env := c.env,
      deployed := if c.deployed then 1 else 0)
  }

  function ConflictUpdate(r: Row, c: DBContainer): Row
  {
    r.(portsFrom := c.portsFrom, docker := c.docker, units := c.units, env := c.env,
       deployed := if c.deployed then 1 else 0)
  }

  /** On a name conflict only ports, docker, units, env and deployed change. */
  lemma ConflictKeeps(r: Row, c: DBContainer)
    ensures var u := ConflictUpdate(r, c);
      u.id == r.id && u.pubkey == r.pubkey && u.seckey == r.seckey && u.token == r.token
      && u.adminPubkey == r.adminPubkey && u.name == r.name && u.isBuiltin == r.isBuiltin
      && u.paidUntil == r.paidUntil
    ensures var u := ConflictUpdate(r, c);
      u.portsFrom == c.portsFrom && u.docker == c.docker && u.units == c.units && u.env == c.env
      && (u.deployed > 0 <==> c.deployed)
  {
  }

  /** A freshly inserted record reads back with the new id, `paidUntil` 0 and
      an empty admin pubkey dropped; the flags survive the 1/0 encoding. */
  lemma InsertRoundTrip(id: nat, c: DBContainer)
    ensures RecToContainer(InsertRow(id, c))
      == Ok(c.(id := id, paidUntil := 0, adminPubkey := if c.adminPubkey == Some("") then None else c.adminPubkey))
  {
    Hex.HexRoundTrip(c.seckey);
    Hex.BytesToHexIsHex(c.seckey);
  }

  function NameOwner(rows: map<string, Row>, order: seq<string>, name: string): (r: Option<string>)
    requires forall i :: 0 <= i < |order| ==> order[i] in rows
    ensures r.Some? ==> r.value in order && rows[r.value].name == name
    ensures r.None? ==> forall i :: 0 <= i < |order| ==> rows[order[i]].name != name
  {
    if order == [] then None
    else if rows[order[0]].name == name then Some(order[0])
    else NameOwner(rows, order[1..], name)
  }

  ghost predicate TableValid(rows: map<string, Row>, order: seq<string>, nextId: nat)
  {
    (forall k :: k in rows ==> rows[k].pubkey == k && rows[k].id < nextId && Hex.IsHexText(rows[k].seckey))
    && (forall k1, k2 :: k1 in rows && k2 in rows && rows[k1].name == rows[k2].name ==> k1 == k2)
    && RecordStore.Distinct(order)
    && (forall i :: 0 <= i < |order| ==> order[i] in rows)
    && (forall k :: k in rows ==> k in order)
  }

  /** `getMaxPortsFrom` as written: the query names its column `pf`, the code
      reads `ports_from`, which is undefined, so the answer is always 0. */
  function ReadPortsFromOfMaxRecord(maxRecord: Option<map<string, int>>): (r: int)
    ensures maxRecord.Some? && "ports_from" in maxRecord.value && maxRecord.value["ports_from"] != 0
      ==> r == maxRecord.value["ports_from"]
    ensures maxRecord.None? || "ports_from" !in maxRecord.value ==> r == 0
  {
    if maxRecord.Some? && "ports_from" in maxRecord.value then maxRecord.value["ports_from"] else 0
  }

  /** The largest `ports_from`, or 0 for an empty table. */
  function MaxPortsOf(rows: map<string, Row>, order: seq<string>): (m: int)
    requires forall i :: 0 <= i < |order| ==> order[i] in rows
    ensures forall i :: 0 <= i < |order| ==> rows[order[i]].portsFrom <= m
    ensures order != [] ==> exists i :: 0 <= i < |order| && rows[order[i]].portsFrom == m
  {
    if order == [] then 0
    else if |order| == 1 then rows[order[0]].portsFrom
    else
      var rest := MaxPortsOf(rows, order[1..]);
      assert forall i :: 1 <= i < |order| ==> order[i] == order[1..][i - 1];
      if rows[order[0]].portsFrom >= rest then rows[order[0]].portsFrom else rest
  }

  /** With a row at port 5000 the as-written read gives 0. */
  lemma MaxPortsFromAsWrittenExample()
    ensures var rows := map["a" := Row(1, "a", "", "", "", 5000, "n", "", 1, 0, 0, None, 0)];
      MaxPortsOf(rows, ["a"]) == 5000
      && ReadPortsFromOfMaxRecord(Some(map["pf" := MaxPortsOf(rows, ["a"])])) == 0
  {
  }

  /** A name conflict rewrites one row in place: both unique indexes and
      the row order still hold. */
  lemma ConflictPreservesTable(rows: map<string, Row>, order: seq<string>, nextId: nat, k: string, c: DBContainer)
    requires TableValid(rows, order, nextId) && k in rows && rows[k].name == c.name
    ensures TableValid(rows[k := ConflictUpdate(rows[k], c)], order, nextId)
  {
  }

  /** Inserting a row whose pubkey and name are both new keeps both unique
      indexes, and the row joins the order last with the next id. */
  lemma InsertPreservesTable(rows: map<string, Row>, order: seq<string>, nextId: nat, c: DBContainer)
    requires TableValid(rows, order, nextId) && c.pubkey !in rows
    requires forall k :: k in rows ==> rows[k].name != c.name
    ensures TableValid(rows[c.pubkey := InsertRow(nextId, c)], order + [c.pubkey], nextId + 1)
  {
    Hex.BytesToHexIsHex(c.seckey);
    assert RecordStore.Distinct(order + [c.pubkey]) by {
      assert forall i :: 0 <= i < |order| ==> order[i] != c.pubkey;
    }
  }

  class DB {
    var rows: map<string, Row>
    var order: seq<string>
    var nextId: nat

    ghost predicate Valid()
      reads this
    {
      TableValid(rows, order, nextId)
    }

    constructor ()
      ensures Valid() && rows == map[] && order == []
    {
      rows := map[];
      order := [];
      nextId := 1;
    }

    function GetNamedContainer(name: string): (r: Option<DBContainer>)
      reads this
      requires Valid()
      ensures r.None? <==> forall k :: k in rows ==> rows[k].name != name
      ensures r.Some? ==> r.value.name == name && r.value.pubkey in rows
      ensures r.Some? ==> Ok(r.value) == RecToContainer(rows[r.value.pubkey])
    {
      match NameOwner(rows, order, name)
      case None => None
      case Some(k) =>
        Hex.HexToBytesAccepts(rows[k].seckey);
        Some(RecToContainer(rows[k]).value)
    }

    /** `getMaxPortsFrom` as written: the one record the aggregate query
        returns is `{pf: MAX(ports_from)}`, and its `ports_from` is read. */
    function GetMaxPortsFromAsWritten(): (m: int)
      reads this
      requires Valid()
      ensures m == 0
    {
      ReadPortsFromOfMaxRecord(Some(map["pf" := MaxPortsOf(rows, order)]))
    }

    /** `getMaxPortsFrom`, with the column read under its alias: no row has
        a larger `ports_from`, and some row has exactly it; an empty table
        gives 0. */
    function GetMaxPortsFrom(): (m: int)
      reads this
      requires Valid()
      ensures forall k :: k in rows ==> rows[k].portsFrom <= m
      ensures rows != map[] ==> exists k :: k in rows && rows[k].portsFrom == m
      ensures rows == map[] ==> m == 0
    {
      assert rows != map[] ==> order != [] by {
        if rows != map[] {
          var k :| k in rows;
          assert k in order;
        }
      }
      var m := MaxPortsOf(rows, order);
      assert forall k :: k in rows ==> exists i :: 0 <= i < |order| && order[i] == k;
      m
    }

    method UpsertContainer(c: DBContainer) returns (o: Outcome)
      requires Valid()
      modifies this
      ensures Valid()
      ensures match NameOwner(old(rows), old(order), c.name)
        case Some(k) =>
          o == Done && rows == old(rows)[k := ConflictUpdate(old(rows)[k], c)]
          && order == old(order) && nextId == old(nextId)
        case None =>
          if c.pubkey in old(rows) then
            o == Fail(RecordStore.UniquePubkeyError) && rows == old(rows) && order == old(order) && nextId == old(nextId)
          else
            o == Done && rows == old(rows)[c.pubkey := InsertRow(old(nextId), c)]
            && order == old(order) + [c.pubkey] && nextId == old(nextId) + 1
    {
      var owner := NameOwner(rows, order, c.name);
      if owner.Some? {
        var k := owner.value;
        ConflictPreservesTable(rows, order, nextId, k, c);
        rows := rows[k := ConflictUpdate(rows[k], c)];
        return Done;
      }
      if c.pubkey in rows {
        return Fail(RecordStore.UniquePubkeyError);
      }
      assert forall k :: k in rows ==> rows[k].name != c.name by {
        forall k | k in rows ensures rows[k].name != c.name {
          var i :| 0 <= i < |order| && order[i] == k;
        }
      }
      InsertPreservesTable(rows, order, nextId, c);
      rows := rows[c.pubkey := InsertRow(nextId, c)];
      order := order + [c.pubkey];
      nextId := nextId + 1;
      o := Done;
    }

    function ListContainers(): (r: seq<DBContainer>)
      reads this
      requires Valid()
      ensures |r| == |order|
      ensures forall i :: 0 <= i < |r| ==> r[i].pubkey == order[i] && Ok(r[i]) == RecToContainer(rows[order[i]])
    {
      Records(rows, order)
    }
  }

  function Records(rows: map<string, Row>, order: seq<string>): (r: seq<DBContainer>)
    requires forall i :: 0 <= i < |order| ==> order[i] in rows && rows[order[i]].pubkey == order[i] && Hex.IsHexText(rows[order[i]].seckey)
    ensures |r| == |order|
    ensures forall i :: 0 <= i < |r| ==> r[i].pubkey == order[i] && Ok(r[i]) == RecToContainer(rows[order[i]])
  {
    if order == [] then []
    else [RecToContainer(rows[order[0]]).value] + Records(rows, order[1..])
  }
}
