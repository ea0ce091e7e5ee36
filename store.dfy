/** The relational store the importer writes to: three tables (winners,
    addresses, organizations) that only ever grow. Inserting a row and
    reading back its generated key is "append the row under the next free
    id". The pure value `Tables` specifies the store; the class `Database`
    is the store the importer changes in place. */
module Store {
  import opened Json
  import opened Dates
  import opened Countries

  /** A winner column: the source value as it was, or a parsed date. */
  datatype Cell = Raw(value: Value) | Day(date: Date)

  /** A NobelWinner row: the columns the importer supplied, by name. A column
      that is not in `fields` is unset. */
  datatype Winner = Winner(fields: map<Key, Cell>)

  /** The point of an address, as its (longitude, latitude) pair. The values
      are only copied, never computed with. */
  datatype Coordinates = Coordinates(lon: real, lat: real)

  const Origin := Coordinates(0.0, 0.0)

  /** An Address row. `bornId`, `diedId` and `orgId` are the owner keys
      (winner born there, winner died there, organization located there);
      street and zip are never set by the importer. */
  datatype Address = Address(
    city: Value,
    country: Option<CountryRecord>,
    coordinates: Coordinates,
    bornId: Option<nat>,
    diedId: Option<nat>,
    orgId: Option<nat>)

  /** An Organization row. */
  datatype Organization = Organization(
    name: Value,
    category: string,
    addressId: Option<nat>,
    personId: Option<nat>)

  /** A stored row and its primary key. */
  datatype Row<T> = Row(id: nat, data: T)

  /** Keys increase along the table and are all below the next free key. */
  ghost predicate Keyed<T>(rows: seq<Row<T>>, next: nat)
  {
    (forall i, j :: 0 <= i < j < |rows| ==> rows[i].id < rows[j].id) &&
    (forall i :: 0 <= i < |rows| ==> rows[i].id < next)
  }

  lemma KeyedAppend<T>(rows: seq<Row<T>>, next: nat, x: T)
    ensures Keyed(rows, next) ==> Keyed(rows + [Row(next, x)], next + 1)
  {
  }

  /** The whole store as a value. */
  datatype Tables = Tables(
    winners: seq<Row<Winner>>,
    addresses: seq<Row<Address>>,
    organizations: seq<Row<Organization>>,
    nextWinnerId: nat,
    nextAddressId: nat,
    nextOrganizationId: nat)
  {
    ghost predicate Valid()
    {
      Keyed(winners, nextWinnerId) &&
      Keyed(addresses, nextAddressId) &&
      Keyed(organizations, nextOrganizationId)
    }

    /** Insert a winner; it receives the key `nextWinnerId`. */
    function AddWinner(w: Winner): (t: Tables)
      ensures Valid() ==> t.Valid()
      ensures t.winners == winners + [Row(nextWinnerId, w)]
      ensures t.addresses == addresses && t.organizations == organizations
      ensures t.nextWinnerId == nextWinnerId + 1
      ensures t.nextAddressId == nextAddressId && t.nextOrganizationId == nextOrganizationId
    {
      KeyedAppend(winners, nextWinnerId, w);
      this.(winners := winners + [Row(nextWinnerId, w)], nextWinnerId := nextWinnerId + 1)
    }

    /** Insert an address; it receives the key `nextAddressId`. */
    function AddAddress(a: Address): (t: Tables)
      ensures Valid() ==> t.Valid()
      ensures t.addresses == addresses + [Row(nextAddressId, a)]
      ensures t.winners == winners && t.organizations == organizations
      ensures t.nextAddressId == nextAddressId + 1
      ensures t.nextWinnerId == nextWinnerId && t.nextOrganizationId == nextOrganizationId
    {
      KeyedAppend(addresses, nextAddressId, a);
      this.(addresses := addresses + [Row(nextAddressId, a)], nextAddressId := nextAddressId + 1)
    }

    /** Insert an organization; it receives the key `nextOrganizationId`. */
    function AddOrganization(o: Organization): (t: Tables)
      ensures Valid() ==> t.Valid()
      ensures t.organizations == organizations + [Row(nextOrganizationId, o)]
      ensures t.winners == winners && t.addresses == addresses
      ensures t.nextOrganizationId == nextOrganizationId + 1
      ensures t.nextWinnerId == nextWinnerId && t.nextAddressId == nextAddressId
    {
      KeyedAppend(organizations, nextOrganizationId, o);
      this.(organizations := organizations + [Row(nextOrganizationId, o)], nextOrganizationId := nextOrganizationId + 1)
    }
  }

  /** The five inserts of one laureate record, in order, as appends. */
  lemma AppendRecordRows(t: Tables, w: Winner, born: Address, died: Address, o: Organization, orgAddress: Address)
    ensures var u := t.AddWinner(w).AddAddress(born).AddAddress(died).AddOrganization(o).AddAddress(orgAddress);
            u.winners == t.winners + [Row(t.nextWinnerId, w)] &&
            u.organizations == t.organizations + [Row(t.nextOrganizationId, o)] &&
            u.addresses == t.addresses + [Row(t.nextAddressId, born), Row(t.nextAddressId + 1, died), Row(t.nextAddressId + 2, orgAddress)]
  {
    var u := t.AddWinner(w).AddAddress(born).AddAddress(died).AddOrganization(o).AddAddress(orgAddress);
    assert u.addresses == t.addresses + [Row(t.nextAddressId, born)] + [Row(t.nextAddressId + 1, died)] + [Row(t.nextAddressId + 2, orgAddress)];
  }

  /** An empty store: every table starts its keys at 1. */
  const Empty := Tables([], [], [], 1, 1, 1)

  /** Every table of `t` is a prefix of the same table of `u`: `u` only
      added rows. */
  ghost predicate Extends(t: Tables, u: Tables)
  {
    t.winners <= u.winners && t.addresses <= u.addresses && t.organizations <= u.organizations
  }

  /** The store the importer writes to. Each insert commits at once and
      hands back the generated key. */
  class Database {
    var winners: seq<Row<Winner>>
    var addresses: seq<Row<Address>>
    var organizations: seq<Row<Organization>>
    var nextWinnerId: nat
    var nextAddressId: nat
    var nextOrganizationId: nat

    function Snapshot(): Tables
      reads this
    {
      Tables(winners, addresses, organizations, nextWinnerId, nextAddressId, nextOrganizationId)
    }

    ghost predicate Valid()
      reads this
    {
      Snapshot().Valid()
    }

    constructor ()
      ensures Valid() && Snapshot() == Empty
    {
      winners, addresses, organizations := [], [], [];
      nextWinnerId, nextAddressId, nextOrganizationId := 1, 1, 1;
    }

    method InsertWinner(w: Winner) returns (id: nat)
      requires Valid()
      modifies this
      ensures Valid()
      ensures id == old(nextWinnerId)
      ensures Snapshot() == old(Snapshot()).AddWinner(w)
    {
      id := nextWinnerId;
      winners := winners + [Row(id, w)];
      nextWinnerId := nextWinnerId + 1;
      KeyedAppend(old(winners), id, w);
    }

    method InsertAddress(a: Address) returns (id: nat)
      requires Valid()
      modifies this
      ensures Valid()
      ensures id == old(nextAddressId)
      ensures Snapshot() == old(Snapshot()).AddAddress(a)
    {
      id := nextAddressId;
      addresses := addresses + [Row(id, a)];
      nextAddressId := nextAddressId + 1;
      KeyedAppend(old(addresses), id, a);
    }

    method InsertOrganization(o: Organization) returns (id: nat)
      requires Valid()
      modifies this
      ensures Valid()
      ensures id == old(nextOrganizationId)
      ensures Snapshot() == old(Snapshot()).AddOrganization(o)
    {
      id := nextOrganizationId;
      organizations := organizations + [Row(id, o)];
      nextOrganizationId := nextOrganizationId + 1;
      KeyedAppend(old(organizations), id, o);
    }
  }
}
