/** The first half of loading the laureate file: collecting every country
    code the records mention and looking each one up.

    The person codes are the non-empty birth and death country codes; the
    organization codes are the alpha-2 codes of the organizations' countries,
    resolved by name through the alias table. */
module CountryCodes {
  import opened Json
  import opened Countries

  /** What one value adds to the code set: nothing when it is falsy, itself
      otherwise; a JSON object cannot be a set element. */
  function CodeMember(v: Value): (r: Result<set<Value>>)
    ensures r.Err? <==> v.Point?
    ensures r.Ok? ==> r.value == if Truthy(v) then {v} else {}
  {
    if !Truthy(v) then Ok({})
    else if v.Point? then Err(Unhashable)
    else Ok({v})
  }

  /** A person country code of a record: a truthy value of one of the two
      code labels. */
  ghost predicate PersonCodeOf(item: Record, v: Value)
  {
    Truthy(v) &&
    ((BornCountryCode in item && item[BornCountryCode] == v) ||
     (DiedCountryCode in item && item[DiedCountryCode] == v))
  }

  /** The record can be read by the person-code comprehension: both labels
      are present and neither holds a JSON object. */
  predicate PersonCodesReadable(item: Record)
  {
    BornCountryCode in item && DiedCountryCode in item &&
    !item[BornCountryCode].Point? && !item[DiedCountryCode].Point?
  }

  /** The codes one record contributes to the person-code comprehension. */
  function PersonCodesOf(item: Record): (r: Result<set<Value>>)
    ensures r.Ok? <==> PersonCodesReadable(item)
    ensures r.Ok? ==> forall v :: v in r.value <==> PersonCodeOf(item, v)
  {
    var born :- Get(item, BornCountryCode);
    var a :- CodeMember(born);
    var died :- Get(item, DiedCountryCode);
    var b :- CodeMember(died);
    Ok(a + b)
  }

  /** The comprehension over all records, read record by record. */
  function PersonCodes(data: seq<Record>): (r: Result<set<Value>>)
    ensures r.Ok? <==> forall i :: 0 <= i < |data| ==> PersonCodesReadable(data[i])
    ensures r.Ok? ==> forall v :: v in r.value <==> exists i :: 0 <= i < |data| && PersonCodeOf(data[i], v)
  {
    if data == [] then Ok({})
    else
      var init := data[..|data| - 1];
      var codes :- PersonCodes(init);
      var last :- PersonCodesOf(data[|data| - 1]);
      assert forall i :: 0 <= i < |init| ==> init[i] == data[i];
      Ok(codes + last)
  }

  /** The organization code one record contributes: the alpha-2 code of its
      "country" resolved by name, nothing when the name resolves to nothing.
      A name that does not resolve comes back as a plain string, and reading
      its alpha-2 code fails. */
  function OrgCountryCode(reference: seq<CountryRecord>, item: Record): (r: Result<Option<string>>)
    ensures r.Ok? && r.value.Some? <==>
              Country in item && item[Country].Str? &&
              LookupName(reference, Str(Canonical(item[Country].s))).Resolved?
    ensures r.Ok? && r.value.Some? ==>
              r.value.value == LookupName(reference, Str(Canonical(item[Country].s))).country.alpha2
    ensures r.Err? <==>
              Country !in item || item[Country].Point? ||
              (item[Country].Str? && LookupName(reference, Str(Canonical(item[Country].s))).Unresolved?)
  {
    var name :- Get(item, Country);
    var country :- Alias(name);
    match LookupName(reference, country)
    case Absent => Ok(None)
    case Resolved(c) => Ok(Some(c.alpha2))
    case Unresolved(s) => Err(NotACountry(s))
  }

  /** get_org_countrycodes as a function of the records: the set of all
      organization codes, or the failure of the first record that fails. */
  function OrgCodes(reference: seq<CountryRecord>, data: seq<Record>): (r: Result<set<string>>)
    ensures r.Ok? <==> forall i :: 0 <= i < |data| ==> OrgCountryCode(reference, data[i]).Ok?
    ensures r.Ok? ==> forall a :: a in r.value <==> exists i :: 0 <= i < |data| && OrgCountryCode(reference, data[i]) == Ok(Some(a))
  {
    if data == [] then Ok({})
    else
      var init := data[..|data| - 1];
      var names :- OrgCodes(reference, init);
      var code :- OrgCountryCode(reference, data[|data| - 1]);
      assert forall i :: 0 <= i < |init| ==> init[i] == data[i];
      Ok(if code.Some? then names + {code.value} else names)
  }

  /** Once a prefix of the records fails, the whole pass fails the same way. */
  lemma {:induction false} OrgCodesStopAtFailure(reference: seq<CountryRecord>, data: seq<Record>, k: nat)
    requires k <= |data|
    requires OrgCodes(reference, data[..k]).Err?
    ensures OrgCodes(reference, data) == OrgCodes(reference, data[..k])
  {
    if k < |data| {
      var init := data[..|data| - 1];
      assert init[..k] == data[..k];
      OrgCodesStopAtFailure(reference, init, k);
    } else {
      assert data[..k] == data;
    }
  }

  /** One more record: the codes of a longer prefix are those of the
      shorter one and the record's own. */
  lemma OrgCodesSnoc(reference: seq<CountryRecord>, data: seq<Record>, i: nat, names: set<string>)
    requires i < |data|
    requires OrgCodes(reference, data[..i]) == Ok(names)
    ensures OrgCodes(reference, data[..i + 1]) ==
              (var code :- OrgCountryCode(reference, data[i]);
               Ok(if code.Some? then names + {code.value} else names))
  {
    assert data[..i + 1][..i] == data[..i];
  }

  /** get_org_countrycodes: walks the records, adding the code of each
      organization country that resolves. */
  method GetOrgCountryCodes(reference: seq<CountryRecord>, data: seq<Record>) returns (r: Result<set<string>>)
    ensures r == OrgCodes(reference, data)
  {
    var names: set<string> := {};
    var i := 0;
    while i < |data|
      invariant 0 <= i <= |data|
      invariant OrgCodes(reference, data[..i]) == Ok(names)
    {
      OrgCodesSnoc(reference, data, i, names);
      var code := OrgCountryCode(reference, data[i]);
      if code.Err? {
        OrgCodesStopAtFailure(reference, data, i + 1);
        return Err(code.failure);
      }
      if code.value.Some? {
        names := names + {code.value.value};
      }
      i := i + 1;
    }
    assert data[..i] == data;
    r := Ok(names);
  }

  /** The alpha-2 codes of the organizations, as values of the code set. */
  function AsValues(codes: set<string>): (r: set<Value>)
    ensures forall a :: a in codes <==> Str(a) in r
    ensures forall v :: v in r ==> v.Str?
  {
    set a | a in codes :: Str(a)
  }

  /** get_countrycodes as a function of the records. */
  function CountryCodeSet(reference: seq<CountryRecord>, data: seq<Record>): (r: Result<set<Value>>)
    ensures r.Ok? <==> PersonCodes(data).Ok? && OrgCodes(reference, data).Ok?
    ensures r.Ok? ==> forall v :: v in r.value <==>
              (exists i :: 0 <= i < |data| && PersonCodeOf(data[i], v)) ||
              (v.Str? && exists i :: 0 <= i < |data| && OrgCountryCode(reference, data[i]) == Ok(Some(v.s)))
  {
    var person :- PersonCodes(data);
    var org :- OrgCodes(reference, data);
    Ok(person + AsValues(org))
  }

  /** get_countrycodes: the person codes, then the organization codes. */
  method GetCountryCodes(reference: seq<CountryRecord>, data: seq<Record>) returns (r: Result<set<Value>>)
    ensures r == CountryCodeSet(reference, data)
  {
    var person := PersonCodes(data);
    if person.Err? {
      return Err(person.failure);
    }
    var org := GetOrgCountryCodes(reference, data);
    if org.Err? {
      return Err(org.failure);
    }
    r := Ok(person.value + AsValues(org.value));
  }

  /** create_countries: one code lookup per element of the code set, in the
      order the set is walked; `order` is that order. */
  method CreateCountries(reference: seq<CountryRecord>, codes: set<Value>)
    returns (countries: seq<Option<CountryRecord>>, order: seq<Value>)
    ensures |order| == |codes| && |countries| == |codes|
    ensures forall v :: v in codes <==> v in order
    ensures forall i, j :: 0 <= i < j < |order| ==> order[i] != order[j]
    ensures forall i :: 0 <= i < |order| ==> countries[i] == LookupCode(reference, order[i])
  {
    countries, order := [], [];
    var rest := codes;
    while rest != {}
      invariant rest <= codes
      invariant forall v :: v in codes <==> v in rest || v in order
      invariant forall i :: 0 <= i < |order| ==> order[i] !in rest
      invariant forall i, j :: 0 <= i < j < |order| ==> order[i] != order[j]
      invariant |order| + |rest| == |codes|
      invariant |countries| == |order|
      invariant forall i :: 0 <= i < |order| ==> countries[i] == LookupCode(reference, order[i])
      decreases rest
    {
      var v :| v in rest;
      countries := countries + [LookupCode(reference, v)];
      order := order + [v];
      rest := rest - {v};
    }
  }

  /** What the loader keeps: the records, their code set and the looked-up
      countries. None of it changes after loading. */
  datatype ImportData = ImportData(data: seq<Record>, countrycodes: set<Value>, countries: seq<Option<CountryRecord>>)

  /** Loading the records: collect the code set, then look every code up.
      `order` is the order the code set was walked in; the i-th country is
      the lookup of its i-th code. */
  method Load(reference: seq<CountryRecord>, data: seq<Record>) returns (r: Result<ImportData>, order: seq<Value>)
    ensures r.Ok? <==> CountryCodeSet(reference, data).Ok?
    ensures r.Err? ==> r == Err(CountryCodeSet(reference, data).failure)
    ensures r.Ok? ==> r.value.data == data && r.value.countrycodes == CountryCodeSet(reference, data).value
    ensures r.Ok? ==> |order| == |r.value.countrycodes| && |r.value.countries| == |order|
    ensures r.Ok? ==> forall v :: v in r.value.countrycodes <==> v in order
    ensures r.Ok? ==> forall i, j :: 0 <= i < j < |order| ==> order[i] != order[j]
    ensures r.Ok? ==> forall i :: 0 <= i < |order| ==> r.value.countries[i] == LookupCode(reference, order[i])
  {
    var codes := GetCountryCodes(reference, data);
    if codes.Err? {
      return Err(codes.failure), [];
    }
    var countries;
    countries, order := CreateCountries(reference, codes.value);
    r := Ok(ImportData(data, codes.value, countries));
  }
}
