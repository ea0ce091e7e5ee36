/** The second half of the import: turning every laureate record into one
    winner row, a birth address, a death address, an organization and the
    organization's address.

    The pure functions say what each step inserts into a store value
    (`Tables`); the methods perform the same steps on a `Database` and are
    proved to leave it in exactly that state. Every insert commits on its
    own, so a step that fails leaves the rows inserted before it in place.
    Nothing is deduplicated: every call inserts new rows. */
module Import {
  import opened Json
  import opened Countries
  import opened Dates
  import opened Store
  import CountryCodes

  /** The fields that may name an address's city. */
  const CityFields: set<Key> := {BornCity, DiedCity, City}

  /** The fields that may hold an address's alpha-2 country code. */
  const CodeFields: set<Key> := {BornCountryCode, DiedCountryCode}

  /** The fields a winner row keeps. */
  predicate IsWinnerField(k: Key)
  {
    k.Firstname? || k.Surname? || k.Born? || k.Died? || k.Gender? || k.Year? || k.Category?
  }

  /** The field lists the import passes for the three addresses of a record. */
  const BornAddressFields: seq<Key> := [BornCountryCode, BornCity]
  const DiedAddressFields: seq<Key> := [DiedCountryCode, DiedCity]
  const OrgAddressFields: seq<Key> := [Name, City, Country, GeoPoint2d]

  // ---------------------------------------------------------------------
  // Winner rows

  /** The born/died column: a truthy value is parsed as "%Y-%m-%d"; a falsy
      one is stored as it is. */
  function DateCell(v: Value): (r: Result<Cell>)
    ensures r.Ok? <==> !Truthy(v) || (v.Str? && ParseDate(v.s).Some?)
    ensures r.Ok? && Truthy(v) ==> r.value.Day? && ValidDate(r.value.date) && FormatDate(r.value.date) == v.s
    ensures r.Ok? && !Truthy(v) ==> r.value == Raw(v)
  {
    if !Truthy(v) then Ok(Raw(v))
    else if v.Str? then
      match ParseDate(v.s)
      case Some(d) => Ok(Day(d))
      case None => Err(BadDate(v))
    else Err(BadDate(v))
  }

  /** The winner row of a record: only the winner fields, with the two dates
      parsed. Reading Born or Died fails when the record lacks it. */
  function WinnerFor(item: Record): (r: Result<Winner>)
    ensures r.Ok? <==> Born in item && Died in item && DateCell(item[Born]).Ok? && DateCell(item[Died]).Ok?
    ensures r.Ok? ==> forall k :: k in r.value.fields <==> k in item && IsWinnerField(k)
    ensures r.Ok? ==> forall k :: k in r.value.fields && k != Born && k != Died ==> r.value.fields[k] == Raw(item[k])
    ensures r.Ok? ==> Born in r.value.fields && r.value.fields[Born] == DateCell(item[Born]).value
    ensures r.Ok? ==> Died in r.value.fields && r.value.fields[Died] == DateCell(item[Died]).value
  {
    var filtered := map k | k in item && IsWinnerField(k) :: Raw(item[k]);
    var born :- Get(item, Born);
    var bornCell :- DateCell(born);
    var died :- Get(item, Died);
    var diedCell :- DateCell(died);
    Ok(Winner(filtered[Born := bornCell][Died := diedCell]))
  }

  /** A date column whose text parses is stored as the parsed date. */
  lemma DateCellOfParsed(s: string, d: Date)
    requires ParseDate(s) == Some(d)
    ensures DateCell(Str(s)) == Ok(Day(d))
  {
  }

  /** The winner row of a record holding all seven winner fields. */
  function CompleteRow(item: Record, born: Cell, died: Cell): map<Key, Cell>
    requires Firstname in item && Surname in item && Gender in item && Year in item && Category in item
  {
    map[Firstname := Raw(item[Firstname]), Surname := Raw(item[Surname]),
        Born := born, Died := died,
        Gender := Raw(item[Gender]), Year := Raw(item[Year]), Category := Raw(item[Category])]
  }

  lemma CompleteRowIs(item: Record, born: Cell, died: Cell, w: map<Key, Cell>)
    requires Firstname in item && Surname in item && Gender in item && Year in item && Category in item
    requires Born in item && Died in item
    requires forall k :: k in w <==> k in item && IsWinnerField(k)
    requires Born in w && w[Born] == born && Died in w && w[Died] == died
    requires forall k :: k in w && k != Born && k != Died ==> w[k] == Raw(item[k])
    ensures w == CompleteRow(item, born, died)
  {
    var expected := CompleteRow(item, born, died);
    forall k | k in w
      ensures k in expected && w[k] == expected[k]
    {
      assert IsWinnerField(k);
    }
    forall k | k in expected
      ensures k in w
    {
    }
  }

  /** A record holding all seven winner fields gives the row of exactly
      those seven: the five plain ones copied, the two dates parsed. */
  lemma CompleteWinner(item: Record, born: Cell, died: Cell)
    requires Firstname in item && Surname in item && Gender in item && Year in item && Category in item
    requires Born in item && DateCell(item[Born]) == Ok(born)
    requires Died in item && DateCell(item[Died]) == Ok(died)
    ensures WinnerFor(item) == Ok(Winner(CompleteRow(item, born, died)))
  {
    CompleteRowIs(item, born, died, WinnerFor(item).value.fields);
  }

  /** The motivation text never reaches the winner row. */
  lemma MotivationDropped(item: Record)
    requires WinnerFor(item).Ok?
    ensures Motivation !in WinnerFor(item).value.fields
    ensures OverallMotivation !in WinnerFor(item).value.fields
  {
  }

  // ---------------------------------------------------------------------
  // Addresses

  /** The position of the first field of `fields` that is one of `wanted`. */
  function FirstIndex(fields: seq<Key>, wanted: set<Key>): (r: Option<nat>)
    ensures r.None? ==> forall j :: 0 <= j < |fields| ==> fields[j] !in wanted
    ensures r.Some? ==> r.value < |fields| && fields[r.value] in wanted
    ensures r.Some? ==> forall j :: 0 <= j < r.value ==> fields[j] !in wanted
  {
    if fields == [] then None
    else if fields[0] in wanted then Some(0)
    else
      match FirstIndex(fields[1..], wanted)
      case None => None
      case Some(k) => Some(k + 1)
  }

  /** next(item[f] for f in fields if f in wanted): the value of the first
      wanted field; StopIteration when there is none, KeyError when the
      record lacks it. */
  function FirstValue(item: Record, fields: seq<Key>, wanted: set<Key>): (r: Result<Value>)
    ensures r.Ok? <==> FirstIndex(fields, wanted).Some? && fields[FirstIndex(fields, wanted).value] in item
    ensures r.Ok? ==> r.value == item[fields[FirstIndex(fields, wanted).value]]
    ensures FirstIndex(fields, wanted).None? ==> r == Err(NoSuchField)
    ensures FirstIndex(fields, wanted).Some? && fields[FirstIndex(fields, wanted).value] !in item ==>
              r == Err(KeyMissing(fields[FirstIndex(fields, wanted).value]))
  {
    match FirstIndex(fields, wanted)
    case None => Err(NoSuchField)
    case Some(i) => Get(item, fields[i])
  }

  /** The country of an address, as the lookup answered it. With Country in
      the list it is the organization country resolved by name, which may
      stay a plain string; otherwise it is the lookup of the first code
      field, which never does. */
  function CountryOf(reference: seq<CountryRecord>, item: Record, fields: seq<Key>): (r: Result<NameLookup>)
  {
    if Country in fields then
      var name :- Get(item, Country);
      CountryFromName(reference, name)
    else
      var code :- FirstValue(item, fields, CodeFields);
      match LookupCode(reference, code)
      case None => Ok(Absent)
      case Some(c) => Ok(Resolved(c))
  }

  /** The point of an address: (0, 0) unless GeoPoint2d is in the list
      and truthy, then its two values in order. */
  function CoordinatesOf(item: Record, fields: seq<Key>): (r: Result<Coordinates>)
  {
    if GeoPoint2d in fields then
      var g :- Get(item, GeoPoint2d);
      if !Truthy(g) then Ok(Origin)
      else if g.Point? then Ok(Coordinates(g.first, g.second))
      else Err(NotAPoint(g))
    else Ok(Origin)
  }

  /** The address row create_address builds for `item` from the field list
      `fields`, owned by `owner` through the keys the list calls for. */
  function AddressFor(reference: seq<CountryRecord>, item: Record, fields: seq<Key>, owner: nat): (r: Result<Address>)
    // the city is the value of the first city field of the list
    ensures r.Ok? ==> FirstValue(item, fields, CityFields) == Ok(r.value.city)
    // the country is resolved by name when Country is in the list ...
    ensures r.Ok? && Country in fields ==>
              Country in item &&
              CountryFromName(reference, item[Country]) ==
                Ok(if r.value.country.Some? then Resolved(r.value.country.value) else Absent)
    // ... and looked up by the first code field otherwise
    ensures r.Ok? && Country !in fields ==>
              FirstValue(item, fields, CodeFields).Ok? &&
              r.value.country == LookupCode(reference, FirstValue(item, fields, CodeFields).value)
    // the coordinates are never missing
    ensures r.Ok? && GeoPoint2d in fields ==> GeoPoint2d in item
    ensures r.Ok? && GeoPoint2d in fields && Truthy(item[GeoPoint2d]) ==>
              item[GeoPoint2d].Point? &&
              r.value.coordinates == Coordinates(item[GeoPoint2d].first, item[GeoPoint2d].second)
    ensures r.Ok? && !(GeoPoint2d in fields && Truthy(item[GeoPoint2d])) ==>
              r.value.coordinates == Origin
    // an owner key is set exactly when its field name is in the list
    ensures r.Ok? ==> (r.value.bornId.Some? <==> BornCountry in fields) && (r.value.bornId.Some? ==> r.value.bornId.value == owner)
    ensures r.Ok? ==> (r.value.diedId.Some? <==> DiedCountry in fields) && (r.value.diedId.Some? ==> r.value.diedId.value == owner)
    ensures r.Ok? ==> (r.value.orgId.Some? <==> Country in fields) && (r.value.orgId.Some? ==> r.value.orgId.value == owner)
  {
    var city :- FirstValue(item, fields, CityFields);
    var found :- CountryOf(reference, item, fields);
    var point :- CoordinatesOf(item, fields);
    // a name that stayed a plain string fails only when the row is built
    if found.Unresolved? then Err(NotACountry(found.name)) else
    Ok(Address(
      city, if found.Resolved? then Some(found.country) else None, point,
      if BornCountry in fields then Some(owner) else None,
      if DiedCountry in fields then Some(owner) else None,
      if Country in fields then Some(owner) else None))
  }

  /** The birth address: the birth city and the looked-up birth code, at
      (0, 0), owned by nobody. It fails only when a field is missing. */
  lemma BornAddress(reference: seq<CountryRecord>, item: Record, owner: nat)
    ensures AddressFor(reference, item, BornAddressFields, owner).Ok? <==>
              BornCountryCode in item && BornCity in item
    ensures BornCountryCode in item && BornCity in item ==>
              AddressFor(reference, item, BornAddressFields, owner) ==
                Ok(Address(item[BornCity], LookupCode(reference, item[BornCountryCode]), Origin, None, None, None))
  {
    assert BornAddressFields[1] == BornCity && BornAddressFields[0] == BornCountryCode;
    assert FirstIndex(BornAddressFields, CityFields) == Some(1);
    assert FirstIndex(BornAddressFields, CodeFields) == Some(0);
  }

  /** The death address, likewise: no owner key either. */
  lemma DiedAddress(reference: seq<CountryRecord>, item: Record, owner: nat)
    ensures AddressFor(reference, item, DiedAddressFields, owner).Ok? <==>
              DiedCountryCode in item && DiedCity in item
    ensures DiedCountryCode in item && DiedCity in item ==>
              AddressFor(reference, item, DiedAddressFields, owner) ==
                Ok(Address(item[DiedCity], LookupCode(reference, item[DiedCountryCode]), Origin, None, None, None))
  {
    assert DiedAddressFields[1] == DiedCity && DiedAddressFields[0] == DiedCountryCode;
    assert FirstIndex(DiedAddressFields, CityFields) == Some(1);
    assert FirstIndex(DiedAddressFields, CodeFields) == Some(0);
  }

  /** The organization address: the organization city, the organization
      country resolved by name through the alias table, owned by the
      organization through `orgId` and by nothing else. It can be built
      exactly when the city, country and point fields are present, the
      country name resolves to a record or to nothing, and a truthy point is
      a point. */
  lemma OrgAddress(reference: seq<CountryRecord>, item: Record, owner: nat)
    ensures AddressFor(reference, item, OrgAddressFields, owner).Ok? <==>
              City in item && Country in item && GeoPoint2d in item &&
              CountryFromName(reference, item[Country]).Ok? &&
              !CountryFromName(reference, item[Country]).value.Unresolved? &&
              (Truthy(item[GeoPoint2d]) ==> item[GeoPoint2d].Point?)
    ensures AddressFor(reference, item, OrgAddressFields, owner).Ok? ==>
              var a := AddressFor(reference, item, OrgAddressFields, owner).value;
              a.city == item[City] &&
              a.country == (match CountryFromName(reference, item[Country]).value
                            case Resolved(c) => Some(c)
                            case _ => None) &&
              a.orgId == Some(owner) && a.bornId == None && a.diedId == None
  {
    assert OrgAddressFields[1] == City && OrgAddressFields[0] !in CityFields;
    assert FirstIndex(OrgAddressFields, CityFields) == Some(1);
  }

  /** A country name that stays a plain string is fatal only once the row
      is built, after the point has been read: a missing or malformed point
      is reported first. */
  lemma OrgAddressUnresolved(reference: seq<CountryRecord>, item: Record, owner: nat, s: string)
    requires City in item && Country in item
    requires CountryFromName(reference, item[Country]) == Ok(Unresolved(s))
    ensures GeoPoint2d !in item ==>
              AddressFor(reference, item, OrgAddressFields, owner) == Err(KeyMissing(GeoPoint2d))
    ensures GeoPoint2d in item && Truthy(item[GeoPoint2d]) && !item[GeoPoint2d].Point? ==>
              AddressFor(reference, item, OrgAddressFields, owner) == Err(NotAPoint(item[GeoPoint2d]))
    ensures GeoPoint2d in item && (Truthy(item[GeoPoint2d]) ==> item[GeoPoint2d].Point?) ==>
              AddressFor(reference, item, OrgAddressFields, owner) == Err(NotACountry(s))
  {
    assert OrgAddressFields[1] == City && OrgAddressFields[0] !in CityFields;
    assert FirstIndex(OrgAddressFields, CityFields) == Some(1);
  }

  // ---------------------------------------------------------------------
  // Inserts, as functions of the store

  /** create_address on a store value: the new store and the new address's
      key, or the store unchanged and the failure. */
  function AddressInsert(t: Tables, reference: seq<CountryRecord>, item: Record, fields: seq<Key>, owner: nat): (Tables, Result<nat>)
  {
    match AddressFor(reference, item, fields, owner)
    case Err(f) => (t, Err(f))
    case Ok(a) => (t.AddAddress(a), Ok(t.nextAddressId))
  }

  /** create_organization on a store value: the organization row is
      committed first, then its address, owned by the new organization. */
  function OrganizationInsert(t: Tables, reference: seq<CountryRecord>, item: Record, fields: seq<Key>, person: nat): (Tables, Result<nat>)
  {
    if Name !in item then (t, Err(KeyMissing(Name)))
    else
      var oid := t.nextOrganizationId;
      var t1 := t.AddOrganization(Organization(item[Name], "", None, Some(person)));
      var (t2, a) := AddressInsert(t1, reference, item, fields, oid);
      (t2, if a.Err? then Err(a.failure) else Ok(oid))
  }

  /** One pass of the import loop on a store value: the winner row, the
      birth address, the death address and the organization, in that order,
      stopping at the first failure with what was committed before it. */
  function RecordImport(t: Tables, reference: seq<CountryRecord>, item: Record): (Tables, Option<Failure>)
  {
    match WinnerFor(item)
    case Err(f) => (t, Some(f))
    case Ok(w) => RecordRelations(t.AddWinner(w), reference, item, t.nextWinnerId)
  }

  /** The inserts that follow the winner row `wid`: its birth address, its
      death address and its organization, stopping at the first failure. */
  function RecordRelations(t1: Tables, reference: seq<CountryRecord>, item: Record, wid: nat): (Tables, Option<Failure>)
  {
    var (t2, born) := AddressInsert(t1, reference, item, BornAddressFields, wid);
    if born.Err? then (t2, Some(born.failure)) else
    var (t3, died) := AddressInsert(t2, reference, item, DiedAddressFields, wid);
    if died.Err? then (t3, Some(died.failure)) else
    var (t4, org) := OrganizationInsert(t3, reference, item, OrgAddressFields, wid);
    (t4, if org.Err? then Some(org.failure) else None)
  }

  /** populate_db on a store value: the records in order, stopping at the
      first failure. */
  function ImportAll(t: Tables, reference: seq<CountryRecord>, data: seq<Record>): (Tables, Option<Failure>)
  {
    if data == [] then (t, None)
    else
      var (u, failure) := ImportAll(t, reference, data[..|data| - 1]);
      if failure.Some? then (u, failure) else RecordImport(u, reference, data[|data| - 1])
  }

  // ---------------------------------------------------------------------
  // Properties of the import

  /** A record that imports is exactly five appends: its winner, its birth
      and death addresses, its organization and the organization's
      address. */
  lemma RecordImportChain(t: Tables, reference: seq<CountryRecord>, item: Record)
    requires RecordImport(t, reference, item).1.None?
    ensures WinnerFor(item).Ok? && Name in item
    ensures AddressFor(reference, item, BornAddressFields, t.nextWinnerId).Ok?
    ensures AddressFor(reference, item, DiedAddressFields, t.nextWinnerId).Ok?
    ensures AddressFor(reference, item, OrgAddressFields, t.nextOrganizationId).Ok?
    ensures RecordImport(t, reference, item).0 ==
              t.AddWinner(WinnerFor(item).value)
               .AddAddress(AddressFor(reference, item, BornAddressFields, t.nextWinnerId).value)
               .AddAddress(AddressFor(reference, item, DiedAddressFields, t.nextWinnerId).value)
               .AddOrganization(Organization(item[Name], "", None, Some(t.nextWinnerId)))
               .AddAddress(AddressFor(reference, item, OrgAddressFields, t.nextOrganizationId).value)
  {
  }

  /** A record that imports adds exactly one winner, three addresses (birth,
      death, organization) and one organization, appended in that order
      after the existing rows, which stay as they were. The organization
      belongs to the new winner, has an empty category and no address key;
      its address belongs to the new organization; the person addresses
      have no owner key. */
  lemma RecordImportRows(t: Tables, reference: seq<CountryRecord>, item: Record)
    requires RecordImport(t, reference, item).1.None?
    ensures WinnerFor(item).Ok? && Name in item
    ensures AddressFor(reference, item, BornAddressFields, t.nextWinnerId).Ok?
    ensures AddressFor(reference, item, DiedAddressFields, t.nextWinnerId).Ok?
    ensures AddressFor(reference, item, OrgAddressFields, t.nextOrganizationId).Ok?
    ensures var u := RecordImport(t, reference, item).0;
            var wid := t.nextWinnerId;
            var aid := t.nextAddressId;
            var oid := t.nextOrganizationId;
            u.winners == t.winners + [Row(wid, WinnerFor(item).value)] &&
            u.organizations == t.organizations + [Row(oid, Organization(item[Name], "", None, Some(wid)))] &&
            u.addresses == t.addresses + [
              Row(aid, AddressFor(reference, item, BornAddressFields, wid).value),
              Row(aid + 1, AddressFor(reference, item, DiedAddressFields, wid).value),
              Row(aid + 2, AddressFor(reference, item, OrgAddressFields, oid).value)]
    ensures var born := AddressFor(reference, item, BornAddressFields, t.nextWinnerId).value;
            born.bornId == None && born.diedId == None && born.orgId == None
    ensures var died := AddressFor(reference, item, DiedAddressFields, t.nextWinnerId).value;
            died.bornId == None && died.diedId == None && died.orgId == None
    ensures var org := AddressFor(reference, item, OrgAddressFields, t.nextOrganizationId).value;
            org.orgId == Some(t.nextOrganizationId) && org.bornId == None && org.diedId == None
  {
    var wid := t.nextWinnerId;
    var oid := t.nextOrganizationId;
    RecordImportChain(t, reference, item);
    AppendRecordRows(t, WinnerFor(item).value,
      AddressFor(reference, item, BornAddressFields, wid).value,
      AddressFor(reference, item, DiedAddressFields, wid).value,
      Organization(item[Name], "", None, Some(wid)),
      AddressFor(reference, item, OrgAddressFields, oid).value);
    BornAddress(reference, item, wid);
    DiedAddress(reference, item, wid);
    OrgAddress(reference, item, oid);
  }

  /** A record whose birth address fails keeps its winner row: the winner
      was committed before the address was built. */
  lemma WinnerKeptWhenBornAddressFails(t: Tables, reference: seq<CountryRecord>, item: Record)
    requires WinnerFor(item).Ok?
    requires AddressFor(reference, item, BornAddressFields, t.nextWinnerId).Err?
    ensures RecordImport(t, reference, item) ==
              (t.AddWinner(WinnerFor(item).value),
               Some(AddressFor(reference, item, BornAddressFields, t.nextWinnerId).failure))
  {
  }

  /** A record whose death address fails keeps its winner row and its
      birth address. */
  lemma BirthKeptWhenDiedAddressFails(t: Tables, reference: seq<CountryRecord>, item: Record)
    requires WinnerFor(item).Ok?
    requires AddressFor(reference, item, BornAddressFields, t.nextWinnerId).Ok?
    requires AddressFor(reference, item, DiedAddressFields, t.nextWinnerId).Err?
    ensures RecordImport(t, reference, item) ==
              (t.AddWinner(WinnerFor(item).value)
                .AddAddress(AddressFor(reference, item, BornAddressFields, t.nextWinnerId).value),
               Some(AddressFor(reference, item, DiedAddressFields, t.nextWinnerId).failure))
  {
  }

  /** A record whose organization address fails keeps everything before it,
      the organization row included: the organization was committed before
      its address was built. */
  lemma OrganizationKeptWhenItsAddressFails(t: Tables, reference: seq<CountryRecord>, item: Record)
    requires WinnerFor(item).Ok? && Name in item
    requires AddressFor(reference, item, BornAddressFields, t.nextWinnerId).Ok?
    requires AddressFor(reference, item, DiedAddressFields, t.nextWinnerId).Ok?
    requires AddressFor(reference, item, OrgAddressFields, t.nextOrganizationId).Err?
    ensures RecordImport(t, reference, item) ==
              (t.AddWinner(WinnerFor(item).value)
                .AddAddress(AddressFor(reference, item, BornAddressFields, t.nextWinnerId).value)
                .AddAddress(AddressFor(reference, item, DiedAddressFields, t.nextWinnerId).value)
                .AddOrganization(Organization(item[Name], "", None, Some(t.nextWinnerId))),
               Some(AddressFor(reference, item, OrgAddressFields, t.nextOrganizationId).failure))
    ensures RecordImport(t, reference, item).0.organizations ==
              t.organizations + [Row(t.nextOrganizationId, Organization(item[Name], "", None, Some(t.nextWinnerId)))]
  {
  }

  /** An import that finishes finished its prefix, then imported the last
      record on the store the prefix left. */
  lemma ImportLast(t: Tables, reference: seq<CountryRecord>, data: seq<Record>)
    requires data != []
    requires ImportAll(t, reference, data).1.None?
    ensures ImportAll(t, reference, data[..|data| - 1]).1.None?
    ensures ImportAll(t, reference, data) == RecordImport(ImportAll(t, reference, data[..|data| - 1]).0, reference, data[|data| - 1])
  {
  }

  /** Inserting an address only appends, and keeps the keys valid. */
  lemma AddressInsertAppendsOnly(t: Tables, reference: seq<CountryRecord>, item: Record, fields: seq<Key>, owner: nat)
    ensures Extends(t, AddressInsert(t, reference, item, fields, owner).0)
    ensures t.Valid() ==> AddressInsert(t, reference, item, fields, owner).0.Valid()
  {
  }

  /** Inserting an organization only appends, and keeps the keys valid. */
  lemma OrganizationInsertAppendsOnly(t: Tables, reference: seq<CountryRecord>, item: Record, fields: seq<Key>, person: nat)
    ensures Extends(t, OrganizationInsert(t, reference, item, fields, person).0)
    ensures t.Valid() ==> OrganizationInsert(t, reference, item, fields, person).0.Valid()
  {
    if Name in item {
      var t1 := t.AddOrganization(Organization(item[Name], "", None, Some(person)));
      AddressInsertAppendsOnly(t1, reference, item, fields, t.nextOrganizationId);
    }
  }

  /** One record only appends, and keeps the keys increasing and fresh. */
  lemma RecordImportAppendsOnly(t: Tables, reference: seq<CountryRecord>, item: Record)
    ensures Extends(t, RecordImport(t, reference, item).0)
    ensures t.Valid() ==> RecordImport(t, reference, item).0.Valid()
  {
    if WinnerFor(item).Ok? {
      var wid := t.nextWinnerId;
      var t1 := t.AddWinner(WinnerFor(item).value);
      assert Extends(t, t1);
      var (t2, born) := AddressInsert(t1, reference, item, BornAddressFields, wid);
      AddressInsertAppendsOnly(t1, reference, item, BornAddressFields, wid);
      assert Extends(t, t2);
      if born.Ok? {
        var (t3, died) := AddressInsert(t2, reference, item, DiedAddressFields, wid);
        AddressInsertAppendsOnly(t2, reference, item, DiedAddressFields, wid);
        assert Extends(t, t3);
        if died.Ok? {
          OrganizationInsertAppendsOnly(t3, reference, item, OrgAddressFields, wid);
        }
      }
    }
  }

  /** The import only appends, and keeps the keys of every table increasing
      and fresh, whether it finishes or stops at a failure. */
  lemma {:induction false} ImportAppendsOnly(t: Tables, reference: seq<CountryRecord>, data: seq<Record>)
    ensures Extends(t, ImportAll(t, reference, data).0)
    ensures t.Valid() ==> ImportAll(t, reference, data).0.Valid()
  {
    if data != [] {
      var init := data[..|data| - 1];
      ImportAppendsOnly(t, reference, init);
      var (u, failure) := ImportAll(t, reference, init);
      if failure.None? {
        RecordImportAppendsOnly(u, reference, data[|data| - 1]);
      }
    }
  }

  /** An import that finishes adds one winner, three addresses and one
      organization per record: no row is shared between records. */
  lemma {:induction false} ImportCounts(t: Tables, reference: seq<CountryRecord>, data: seq<Record>)
    requires ImportAll(t, reference, data).1.None?
    ensures var u := ImportAll(t, reference, data).0;
            |u.winners| == |t.winners| + |data| &&
            |u.addresses| == |t.addresses| + 3 * |data| &&
            |u.organizations| == |t.organizations| + |data|
  {
    if data != [] {
      var init := data[..|data| - 1];
      ImportLast(t, reference, data);
      ImportCounts(t, reference, init);
      var u := ImportAll(t, reference, init).0;
      RecordImportRows(u, reference, data[|data| - 1]);
    }
  }

  /** The rows record `item`, the i-th of an import starting from `t`,
      left in `u`: the i-th new winner is its winner row, the i-th new
      organization is named after it and owned by that winner, and the new
      address at 3i + 2 is owned by that organization. */
  ghost predicate RowsOfRecord(t: Tables, u: Tables, item: Record, i: nat)
  {
    |t.winners| + i < |u.winners| &&
    |t.organizations| + i < |u.organizations| &&
    |t.addresses| + 3 * i + 2 < |u.addresses| &&
    WinnerFor(item).Ok? && Name in item &&
    u.winners[|t.winners| + i].data == WinnerFor(item).value &&
    u.organizations[|t.organizations| + i].data ==
      Organization(item[Name], "", None, Some(u.winners[|t.winners| + i].id)) &&
    u.addresses[|t.addresses| + 3 * i + 2].data.orgId == Some(u.organizations[|t.organizations| + i].id)
  }

  /** Rows once written stay where they are when more rows are appended. */
  lemma RowsOfRecordKept(t: Tables, u: Tables, v: Tables, item: Record, i: nat)
    requires RowsOfRecord(t, u, item, i)
    requires Extends(u, v)
    ensures RowsOfRecord(t, v, item, i)
  {
    assert v.winners[|t.winners| + i] == u.winners[|t.winners| + i];
    assert v.organizations[|t.organizations| + i] == u.organizations[|t.organizations| + i];
    assert v.addresses[|t.addresses| + 3 * i + 2] == u.addresses[|t.addresses| + 3 * i + 2];
  }

  /** The rows a record that imports leaves, at the start of what it adds. */
  lemma RecordImportRowsOf(t: Tables, reference: seq<CountryRecord>, item: Record)
    requires RecordImport(t, reference, item).1.None?
    ensures RowsOfRecord(t, RecordImport(t, reference, item).0, item, 0)
  {
    RecordImportRows(t, reference, item);
  }

  /** Rows found after the rows of `k` earlier records are those rows
      counted from the start of the import. */
  lemma RowsOfRecordShift(t: Tables, u: Tables, v: Tables, item: Record, k: nat)
    requires |u.winners| == |t.winners| + k
    requires |u.organizations| == |t.organizations| + k
    requires |u.addresses| == |t.addresses| + 3 * k
    requires RowsOfRecord(u, v, item, 0)
    ensures RowsOfRecord(t, v, item, k)
  {
  }

  /** The rows of the last record of an import that finishes. */
  lemma RowsOfLastRecord(t: Tables, reference: seq<CountryRecord>, data: seq<Record>)
    requires data != []
    requires ImportAll(t, reference, data).1.None?
    ensures RowsOfRecord(t, ImportAll(t, reference, data).0, data[|data| - 1], |data| - 1)
  {
    var init := data[..|data| - 1];
    var last := data[|data| - 1];
    ImportLast(t, reference, data);
    var u := ImportAll(t, reference, init).0;
    ImportCounts(t, reference, init);
    RecordImportRowsOf(u, reference, last);
    RowsOfRecordShift(t, u, ImportAll(t, reference, data).0, last, |init|);
  }

  /** The rows of record `i` of an import that finishes. Every record has
      rows of its own: two records naming the same organization give two
      organization rows. */
  lemma {:induction false} ImportRowsOfRecord(t: Tables, reference: seq<CountryRecord>, data: seq<Record>, i: nat)
    requires i < |data|
    requires ImportAll(t, reference, data).1.None?
    ensures RowsOfRecord(t, ImportAll(t, reference, data).0, data[i], i)
  {
    if i == |data| - 1 {
      RowsOfLastRecord(t, reference, data);
    } else {
      var init := data[..|data| - 1];
      ImportLast(t, reference, data);
      ImportRowsOfRecord(t, reference, init, i);
      var u := ImportAll(t, reference, init).0;
      RecordImportRows(u, reference, data[|data| - 1]);
      assert init[i] == data[i];
      RowsOfRecordKept(t, u, ImportAll(t, reference, data).0, data[i], i);
    }
  }

  /** There is no deduplication: two records of an import that finishes get
      two distinct organization rows, named after each record, even when
      they name the same organization, and two distinct organization
      addresses, even when they name the same city. */
  lemma NoDeduplication(t: Tables, reference: seq<CountryRecord>, data: seq<Record>, i: nat, j: nat)
    requires t.Valid()
    requires i < j < |data|
    requires ImportAll(t, reference, data).1.None?
    ensures var u := ImportAll(t, reference, data).0;
            |t.organizations| + j < |u.organizations| && |t.addresses| + 3 * j + 2 < |u.addresses| &&
            Name in data[i] && Name in data[j] &&
            u.organizations[|t.organizations| + i].data.name == data[i][Name] &&
            u.organizations[|t.organizations| + j].data.name == data[j][Name] &&
            u.organizations[|t.organizations| + i].id < u.organizations[|t.organizations| + j].id &&
            u.addresses[|t.addresses| + 3 * i + 2].id < u.addresses[|t.addresses| + 3 * j + 2].id
  {
    ImportRowsOfRecord(t, reference, data, i);
    ImportRowsOfRecord(t, reference, data, j);
    ImportAppendsOnly(t, reference, data);
  }

  /** One more record: the import of a longer prefix is the import of the
      record on the store the shorter prefix left. */
  lemma ImportSnoc(t: Tables, reference: seq<CountryRecord>, data: seq<Record>, i: nat)
    requires i < |data|
    requires ImportAll(t, reference, data[..i]).1.None?
    ensures ImportAll(t, reference, data[..i + 1]) == RecordImport(ImportAll(t, reference, data[..i]).0, reference, data[i])
  {
    assert data[..i + 1][..i] == data[..i];
  }

  /** Once a prefix of the records fails, the import ends there. */
  lemma {:induction false} ImportStopsAtFailure(t: Tables, reference: seq<CountryRecord>, data: seq<Record>, k: nat)
    requires k <= |data|
    requires ImportAll(t, reference, data[..k]).1.Some?
    ensures ImportAll(t, reference, data) == ImportAll(t, reference, data[..k])
  {
    if k < |data| {
      var init := data[..|data| - 1];
      assert init[..k] == data[..k];
      ImportStopsAtFailure(t, reference, init, k);
    } else {
      assert data[..k] == data;
    }
  }

  // ---------------------------------------------------------------------
  // The importer, on a database it changes in place

  /** create_address: builds the address row and inserts it. */
  method CreateAddress(reference: seq<CountryRecord>, db: Database, item: Record, fields: seq<Key>, owner: nat)
    returns (r: Result<nat>)
    requires db.Valid()
    modifies db
    ensures db.Valid()
    ensures (db.Snapshot(), r) == AddressInsert(old(db.Snapshot()), reference, item, fields, owner)
  {
    var address := AddressFor(reference, item, fields, owner);
    if address.Err? {
      return Err(address.failure);
    }
    var id := db.InsertAddress(address.value);
    r := Ok(id);
  }

  /** create_organization: inserts the organization, then its address. */
  method CreateOrganization(reference: seq<CountryRecord>, db: Database, item: Record, fields: seq<Key>, person: nat)
    returns (r: Result<nat>)
    requires db.Valid()
    modifies db
    ensures db.Valid()
    ensures (db.Snapshot(), r) == OrganizationInsert(old(db.Snapshot()), reference, item, fields, person)
  {
    var name := Get(item, Name);
    if name.Err? {
      return Err(name.failure);
    }
    var oid := db.InsertOrganization(Organization(name.value, "", None, Some(person)));
    var address := CreateAddress(reference, db, item, fields, oid);
    if address.Err? {
      return Err(address.failure);
    }
    r := Ok(oid);
  }

  /** populate_db: every record in turn, stopping at the first failure. */
  method PopulateDb(reference: seq<CountryRecord>, loaded: CountryCodes.ImportData, db: Database)
    returns (failure: Option<Failure>)
    requires db.Valid()
    modifies db
    ensures db.Valid()
    ensures (db.Snapshot(), failure) == ImportAll(old(db.Snapshot()), reference, loaded.data)
  {
    var data := loaded.data;
    ghost var start := db.Snapshot();
    var i := 0;
    while i < |data|
      invariant 0 <= i <= |data|
      invariant db.Valid()
      invariant ImportAll(start, reference, data[..i]) == (db.Snapshot(), None)
    {
      ImportSnoc(start, reference, data, i);
      ghost var before := db.Snapshot();
      var item := data[i];
      var winner := WinnerFor(item);
      if winner.Err? {
        assert RecordImport(before, reference, item) == (db.Snapshot(), Some(winner.failure));
        ImportStopsAtFailure(start, reference, data, i + 1);
        return Some(winner.failure);
      }
      var wid := db.InsertWinner(winner.value);
      var born := CreateAddress(reference, db, item, BornAddressFields, wid);
      if born.Err? {
        assert RecordImport(before, reference, item) == (db.Snapshot(), Some(born.failure));
        ImportStopsAtFailure(start, reference, data, i + 1);
        return Some(born.failure);
      }
      var died := CreateAddress(reference, db, item, DiedAddressFields, wid);
      if died.Err? {
        assert RecordImport(before, reference, item) == (db.Snapshot(), Some(died.failure));
        ImportStopsAtFailure(start, reference, data, i + 1);
        return Some(died.failure);
      }
      var org := CreateOrganization(reference, db, item, OrgAddressFields, wid);
      if org.Err? {
        assert RecordImport(before, reference, item) == (db.Snapshot(), Some(org.failure));
        ImportStopsAtFailure(start, reference, data, i + 1);
        return Some(org.failure);
      }
      assert RecordImport(before, reference, item) == (db.Snapshot(), None);
      i := i + 1;
    }
    assert data[..i] == data;
    failure := None;
  }
}
