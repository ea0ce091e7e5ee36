/** The laureate record shown at the end of the importer, and a
    two-country reference table to run it against. */
module ExampleRecord {
  import opened Json
  import opened Countries
  import opened Dates
  import opened Store
  import opened Import

  const UnitedStates := CountryRecord("United States", "US", "USA")
  const Jamaica := CountryRecord("Jamaica", "JM", "JAM")
  const Reference: seq<CountryRecord> := [UnitedStates, Jamaica]

  const Hench: Record := map[
    Id := Num(351),
    Firstname := Str("Philip S."),
    Surname := Str("Hench"),
    Born := Str("1896-02-28"),
    Died := Str("1965-03-30"),
    BornCountry := Str("USA"),
    BornCountryCode := Str("US"),
    BornCity := Str("Pittsburgh PA"),
    DiedCountry := Str("Jamaica"),
    DiedCountryCode := Str("JM"),
    DiedCity := Str("Ocho Rios"),
    Gender := Str("male"),
    Year := Num(1950),
    Category := Str("Medicine"),
    OverallMotivation := Null,
    Motivation := Str("\"for their discoveries relating to the hormones of the adrenal cortex their structure and biological effects\""),
    Name := Str("Mayo Clinic"),
    City := Str("Rochester MN"),
    Country := Str("USA"),
    GeoShape := Null,
    GeoPoint2d := Point(-112.4943339159, 45.6875333395),
    BornCountryCode3 := Str("USA"),
    DiedCountryCode3 := Str("JAM")
  ]

  /** The winner row of the example: the five plain winner fields copied,
      the two dates parsed; the motivation is not there. */
  const HenchWinner := Winner(CompleteRow(Hench, Day(Date(1896, 2, 28)), Day(Date(1965, 3, 30))))
}

/** The example record run through the model. */
module Example {
  import opened Json
  import opened Countries
  import opened Dates
  import opened Store
  import opened CountryCodes
  import opened Import
  import opened ExampleRecord

  /** The birth date of the example parses. */
  lemma HenchBornCell()
    ensures DateCell(Hench[Born]) == Ok(Day(Date(1896, 2, 28)))
  {
    ExampleBirthText();
    assert Hench[Born] == Str(FormatDate(Date(1896, 2, 28)));
    FormatThenParse(Date(1896, 2, 28));
    DateCellOfParsed(FormatDate(Date(1896, 2, 28)), Date(1896, 2, 28));
  }

  /** The death date of the example parses. */
  lemma HenchDiedCell()
    ensures DateCell(Hench[Died]) == Ok(Day(Date(1965, 3, 30)))
  {
    ExampleDeathText();
    assert Hench[Died] == Str(FormatDate(Date(1965, 3, 30)));
    FormatThenParse(Date(1965, 3, 30));
    DateCellOfParsed(FormatDate(Date(1965, 3, 30)), Date(1965, 3, 30));
  }

  lemma HenchWinnerRow()
    ensures WinnerFor(Hench) == Ok(HenchWinner)
  {
    HenchBornCell();
    HenchDiedCell();
    assert Firstname in Hench && Surname in Hench && Gender in Hench && Year in Hench && Category in Hench;
    CompleteWinner(Hench, Day(Date(1896, 2, 28)), Day(Date(1965, 3, 30)));
  }

  /** The birth code names the United States, the death code Jamaica. */
  lemma HenchCodes()
    ensures LookupCode(Reference, Hench[BornCountryCode]) == Some(UnitedStates)
    ensures LookupCode(Reference, Hench[DiedCountryCode]) == Some(Jamaica)
  {
    assert Hench[BornCountryCode] == Str("US");
    assert Hench[DiedCountryCode] == Str("JM");
  }

  /** The organization country "USA" goes through the alias table and
      resolves to the United States. */
  lemma HenchOrgCountry()
    ensures CountryFromName(Reference, Hench[Country]) == Ok(Resolved(UnitedStates))
  {
    assert Hench[Country] == Str("USA");
    assert Canonical("USA") == "United States";
  }

  lemma HenchBornAddress()
    ensures AddressFor(Reference, Hench, BornAddressFields, 1) ==
              Ok(Address(Hench[BornCity], Some(UnitedStates), Origin, None, None, None))
  {
    BornAddress(Reference, Hench, 1);
    HenchCodes();
  }

  lemma HenchDiedAddress()
    ensures AddressFor(Reference, Hench, DiedAddressFields, 1) ==
              Ok(Address(Hench[DiedCity], Some(Jamaica), Origin, None, None, None))
  {
    DiedAddress(Reference, Hench, 1);
    HenchCodes();
  }

  lemma HenchOrgAddress()
    ensures AddressFor(Reference, Hench, OrgAddressFields, 1) ==
              Ok(Address(Hench[City], Some(UnitedStates), Coordinates(-112.4943339159, 45.6875333395), None, None, Some(1)))
  {
    HenchOrgCountry();
    assert Hench[GeoPoint2d] == Point(-112.4943339159, 45.6875333395);
    OrgAddress(Reference, Hench, 1);
  }

  /** Every step of the import succeeds on the example. */
  lemma HenchRecordImport()
    ensures RecordImport(Empty, Reference, Hench).1.None?
  {
    HenchWinnerRow();
    HenchBornAddress();
    HenchDiedAddress();
    HenchOrgAddress();
    assert Name in Hench;
  }

  lemma HenchOnlyRecord()
    ensures ImportAll(Empty, Reference, [Hench]) == RecordImport(Empty, Reference, Hench)
  {
    assert [Hench][..0] == [];
  }

  /** The winner table after importing the example: its one row, key 1. */
  lemma HenchImportWinners()
    ensures ImportAll(Empty, Reference, [Hench]).0.winners == [Row(1, HenchWinner)]
  {
    HenchRecordImport();
    HenchOnlyRecord();
    RecordImportRows(Empty, Reference, Hench);
    HenchWinnerRow();
  }

  /** The organization table: the Mayo Clinic, owned by winner 1. */
  lemma HenchImportOrganizations()
    ensures ImportAll(Empty, Reference, [Hench]).0.organizations ==
              [Row(1, Organization(Hench[Name], "", None, Some(1)))]
  {
    HenchRecordImport();
    HenchOnlyRecord();
    RecordImportRows(Empty, Reference, Hench);
  }

  /** The address table: birth, death and organization address, keys 1 to
      3, only the last with an owner key (organization 1). */
  lemma HenchImportAddresses()
    ensures ImportAll(Empty, Reference, [Hench]).0.addresses ==
              [Row(1, Address(Hench[BornCity], Some(UnitedStates), Origin, None, None, None)),
               Row(2, Address(Hench[DiedCity], Some(Jamaica), Origin, None, None, None)),
               Row(3, Address(Hench[City], Some(UnitedStates),
                              Coordinates(-112.4943339159, 45.6875333395), None, None, Some(1)))]
  {
    HenchRecordImport();
    HenchOnlyRecord();
    RecordImportRows(Empty, Reference, Hench);
    HenchBornAddress();
    HenchDiedAddress();
    HenchOrgAddress();
  }

  /** The next free keys after the example: one winner, three addresses and
      one organization were taken. */
  lemma HenchImportKeys()
    ensures var u := ImportAll(Empty, Reference, [Hench]);
            u.1 == None && u.0.nextWinnerId == 2 && u.0.nextAddressId == 4 && u.0.nextOrganizationId == 2
  {
    HenchRecordImport();
    HenchOnlyRecord();
    RecordImportChain(Empty, Reference, Hench);
  }

  /** Importing the example into an empty store gives one winner (key 1);
      its birth address in Pittsburgh and death address in Ocho Rios, with
      no owner key; the Mayo Clinic, owned by the winner; and the clinic's
      address in Rochester at its point, in the United States, owned by the
      clinic. */
  lemma HenchImport()
    ensures ImportAll(Empty, Reference, [Hench]) == (
      Tables(
        [Row(1, HenchWinner)],
        [Row(1, Address(Hench[BornCity], Some(UnitedStates), Origin, None, None, None)),
         Row(2, Address(Hench[DiedCity], Some(Jamaica), Origin, None, None, None)),
         Row(3, Address(Hench[City], Some(UnitedStates),
                        Coordinates(-112.4943339159, 45.6875333395), None, None, Some(1)))],
        [Row(1, Organization(Hench[Name], "", None, Some(1)))],
        2, 4, 2),
      None)
  {
    HenchImportWinners();
    HenchImportOrganizations();
    HenchImportAddresses();
    HenchImportKeys();
  }

  lemma PersonCodesOfStrings(item: Record)
    requires BornCountryCode in item && item[BornCountryCode].Str? && item[BornCountryCode].s != ""
    requires DiedCountryCode in item && item[DiedCountryCode].Str? && item[DiedCountryCode].s != ""
    ensures PersonCodesOf(item) == Ok({item[BornCountryCode], item[DiedCountryCode]})
  {
    var born, died := item[BornCountryCode], item[DiedCountryCode];
    assert CodeMember(born) == Ok({born});
    assert CodeMember(died) == Ok({died});
    assert {born} + {died} == {born, died};
  }

  lemma SingleRecordCodes(reference: seq<CountryRecord>, item: Record)
    ensures PersonCodes([item]) == (var c :- PersonCodesOf(item); Ok(c))
    ensures OrgCodes(reference, [item]) ==
              (var c :- OrgCountryCode(reference, item); Ok(if c.Some? then {c.value} else {}))
  {
    assert [item][..0] == [];
    assert PersonCodes([]) == Ok({});
    assert OrgCodes(reference, []) == Ok({});
    var p := PersonCodesOf(item);
    if p.Ok? {
      assert {} + p.value == p.value;
    }
    var o := OrgCountryCode(reference, item);
    if o.Ok? && o.value.Some? {
      assert {} + {o.value.value} == {o.value.value};
    }
  }

  /** The person codes of the example: its birth and death codes. */
  lemma HenchPersonCodes()
    ensures PersonCodes([Hench]) == Ok({Str("US"), Str("JM")})
  {
    assert Hench[BornCountryCode] == Str("US");
    assert Hench[DiedCountryCode] == Str("JM");
    PersonCodesOfStrings(Hench);
    SingleRecordCodes(Reference, Hench);
  }

  /** The organization code of the example: "USA" resolves to the United
      States, whose alpha-2 code is "US". */
  lemma HenchOrgCodes()
    ensures OrgCodes(Reference, [Hench]) == Ok({"US"})
  {
    HenchOrgCountry();
    assert Hench[Country] == Str("USA");
    assert OrgCountryCode(Reference, Hench) == Ok(Some("US"));
    SingleRecordCodes(Reference, Hench);
  }

  lemma CodeSetOfParts(reference: seq<CountryRecord>, data: seq<Record>, person: set<Value>, org: string)
    requires PersonCodes(data) == Ok(person) && Str(org) in person
    requires OrgCodes(reference, data) == Ok({org})
    ensures CountryCodeSet(reference, data) == Ok(person)
  {
    assert AsValues({org}) == {Str(org)};
    assert person + {Str(org)} == person;
  }

  /** The code set of the example: "US" and "JM"; the organization's "US"
      is the birth code again. */
  lemma HenchCountryCodes()
    ensures CountryCodeSet(Reference, [Hench]) == Ok({Str("US"), Str("JM")})
  {
    HenchPersonCodes();
    HenchOrgCodes();
    CodeSetOfParts(Reference, [Hench], {Str("US"), Str("JM")}, "US");
  }
}
