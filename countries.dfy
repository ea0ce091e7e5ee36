/** Country resolution: the fixed alias table applied to names, and exact
    lookups by name or by alpha-2 code in a reference table of countries.

    The reference table stands for the ISO 3166 country database the
    importer queries; it is a parameter of every lookup. */
module Countries {
  import opened Json

  /** A canonical country record of the reference table. */
  datatype CountryRecord = CountryRecord(name: string, alpha2: string, alpha3: string)

  /** The column of the reference table a lookup matches on. */
  datatype Column = ByName | ByAlpha2

  function ColumnOf(c: CountryRecord, col: Column): string
  {
    match col
    case ByName => c.name
    case ByAlpha2 => c.alpha2
  }

  /** The first record of `reference` whose `col` is exactly `key`, if any. */
  function Find(reference: seq<CountryRecord>, col: Column, key: string): (r: Option<CountryRecord>)
    ensures r.Some? ==> r.value in reference && ColumnOf(r.value, col) == key
    ensures r.None? ==> forall c :: c in reference ==> ColumnOf(c, col) != key
  {
    if reference == [] then None
    else if ColumnOf(reference[0], col) == key then Some(reference[0])
    else Find(reference[1..], col, key)
  }

  /** Historical or colloquial names used in the laureate file, mapped to the
      names the reference table uses. */
  const Aliases: map<string, string> := map[
    "the Netherlands" := "Netherlands",
    "USSR (now Russia)" := "Russian Federation",
    "Czechoslovakia (now Czech Republic)" := "Czechia",
    "Russia" := "Russian Federation",
    "Germany (now France)" := "France",
    "USA" := "United States"
  ]

  /** The name a country name is looked up under: its alias if it has one,
      otherwise the name itself. */
  function Canonical(name: string): string
  {
    if name in Aliases then Aliases[name] else name
  }

  /** lookup_code: nothing for an empty code, the record with that alpha-2
      code on a hit, nothing on a miss. A value that is not a string is a
      miss (the country database refuses it with a LookupError, which the
      lookup catches). */
  function LookupCode(reference: seq<CountryRecord>, code: Value): (r: Option<CountryRecord>)
    ensures r.Some? <==> code.Str? && code.s != "" && exists c :: c in reference && c.alpha2 == code.s
    ensures r.Some? ==> r.value in reference && r.value.alpha2 == code.s
  {
    if !Truthy(code) then None
    else if code.Str? then Find(reference, ByAlpha2, code.s)
    else None
  }

  /** What lookup_name returns: None, a country record, or the name itself. */
  datatype NameLookup = Absent | Resolved(country: CountryRecord) | Unresolved(name: string)

  /** lookup_name: nothing for an empty name, the record with exactly that
      name on a hit, and the name itself, unchanged, on a miss. */
  function LookupName(reference: seq<CountryRecord>, name: Value): (r: NameLookup)
    ensures r.Absent? <==> !(name.Str? && name.s != "")
    ensures r.Resolved? ==> r.country in reference && r.country.name == name.s
    ensures r.Unresolved? <==> name.Str? && name.s != "" && forall c :: c in reference ==> c.name != name.s
    ensures r.Unresolved? ==> r.name == name.s
  {
    if !Truthy(name) then Absent
    else if name.Str? then
      match Find(reference, ByName, name.s)
      case Some(c) => Resolved(c)
      case None => Unresolved(name.s)
    else Absent
  }

  /** CMAP.get(name, name): a string is replaced by its alias, any other
      value passes through, and a JSON object cannot be a dictionary key. */
  function Alias(name: Value): (r: Result<Value>)
    ensures r.Err? <==> name.Point?
    ensures r.Err? ==> r.failure == Unhashable
    ensures name.Str? ==> r == Ok(Str(Canonical(name.s)))
    ensures !name.Str? && !name.Point? ==> r == Ok(name)
  {
    match name
    case Str(s) => Ok(Str(Canonical(s)))
    case Point(_, _) => Err(Unhashable)
    case _ => Ok(name)
  }

  /** get_country_from_name: the alias table first, then lookup_name. An
      empty or missing name gives nothing; a truthy name that lookup_name
      answers with nothing raises a LookupError; a JSON object cannot be a
      key of the alias table. */
  function CountryFromName(reference: seq<CountryRecord>, name: Value): (r: Result<NameLookup>)
    ensures name.Str? ==> r == Ok(LookupName(reference, Str(Canonical(name.s))))
    ensures name.Point? ==> r == Err(Unhashable)
    ensures name.Num? && name.n != 0 ==> r == Err(CountryNotFound(name))
    ensures !Truthy(name) ==> r == Ok(Absent)
  {
    var country :- Alias(name);
    if Truthy(country) then
      var found := LookupName(reference, country);
      if found.Absent? then Err(CountryNotFound(name)) else Ok(found)
    else Ok(Absent)
  }

  /** Names are resolved after the alias table: "USA" and "Russia" are looked
      up under their canonical names, and a name the alias table does not
      know is looked up unchanged. */
  lemma AliasThenLookup(reference: seq<CountryRecord>, s: string)
    ensures CountryFromName(reference, Str("USA")) == Ok(LookupName(reference, Str("United States")))
    ensures CountryFromName(reference, Str("Russia")) == Ok(LookupName(reference, Str("Russian Federation")))
    ensures s !in Aliases ==> CountryFromName(reference, Str(s)) == Ok(LookupName(reference, Str(s)))
  {
  }

  /** The alias is what makes "USA" resolve: whenever the reference table
      holds a record named "United States", "USA" resolves to such a record. */
  lemma UsaResolvesToUnitedStates(reference: seq<CountryRecord>, us: CountryRecord)
    requires us in reference && us.name == "United States"
    ensures CountryFromName(reference, Str("USA")).Ok?
    ensures CountryFromName(reference, Str("USA")).value.Resolved?
    ensures CountryFromName(reference, Str("USA")).value.country.name == "United States"
  {
    assert Canonical("USA") == "United States";
  }

  /** The two lookups fall back differently on a miss: by code there is
      nothing, by name the name comes back unchanged. */
  lemma MissFallbacks(reference: seq<CountryRecord>, s: string)
    requires s != ""
    requires forall c :: c in reference ==> c.name != s && c.alpha2 != s
    ensures LookupCode(reference, Str(s)) == None
    ensures LookupName(reference, Str(s)) == Unresolved(s)
  {
  }
}
