# nobelmap importer, modelled in Dafny

nobelmap loads a JSON file of Nobel laureate records into a relational
store with three tables: winners, addresses and organizations. Each record
is a flat object with the laureate's names, birth and death dates, birth and
death country codes and cities, gender, prize year and category, motivation,
and the affiliated organization's name, city, country and point.

The importer (`ImportData` in `app/data.py`) works in two stages:

- **Loading.** It collects every country code the records mention. These
  are the non-empty birth and death codes, plus the alpha-2 code of each
  organization country, resolved by name through a fixed alias table
  (`CMAP`). It then looks each code up in the ISO 3166 country database.
- **Population.** For each record in turn it inserts a winner row holding
  the seven winner fields, with the two dates parsed as `%Y-%m-%d`. It then
  inserts a birth address, a death address, an organization owned by the
  winner, and the organization's address, owned by the organization. Every
  insert commits on its own.

The model is split into these modules:

- `Json` (json.dfy): the records. Fields are keyed by an enumeration of the
  23 laureate keys, values are JSON values, and Python truthiness is a
  predicate. Exceptions become a `Failure` carried in a `Result`.
- `Countries` (countries.dfy): the alias table and the exact lookups by
  alpha-2 code and by name. The country database is a parameter: a sequence
  of `CountryRecord`s.
- `Dates` (dates.dfy): the strict `%Y-%m-%d` parser with the calendar checks
  of a Python date, and its inverse formatter.
- `Store` (store.dfy): the three tables as the value `Tables` and as the
  class `Database`. The class's insert methods are proved to leave exactly
  the value the matching `Tables` function computes.
- `CountryCodes` (codes.dfy): the code set, the organization codes (a loop
  proved against a function), the per-code lookups, and the loader.
- `Import` (import.dfy): winner rows, addresses, organizations, and the
  import loop. Pure functions state what each step does to a `Tables`
  value. Methods on a `Database` are proved to do exactly that. Lemmas give
  the append-only, counting, no-deduplication and stop-at-first-failure
  properties.
- `ExampleRecord` and `Example` (example.dfy): the laureate record written
  out at the end of `app/data.py`, imported into an empty store against a
  two-country table, with every resulting row and key proved.

Four behaviours of the code are worth stating outright:

- Nothing is deduplicated. The importer never looks up an existing row, so
  every record inserts its own five rows, even when two records name the
  same organization or city (`Import.NoDeduplication`).
- An organization row is created for every record, whatever its
  organization fields hold (`Import.RecordImportRows`).
- A country name that does not resolve is fatal. The name lookup returns
  the name string itself. Reading `alpha_2` from it (app/data.py:78) or
  `__dict__` (app/data.py:115) then raises, and loading or the import stops
  (`CountryCodes.OrgCountryCode`, `Import.OrgAddress`,
  `Import.OrgAddressUnresolved`).
- The birth and death owner keys of an address are never set. They are set
  only when "borncountry" or "diedcountry" is in the field list, and no
  caller passes either (`Import.BornAddress`, `Import.DiedAddress`).

## Model

| member | source | states |
|---|---|---|
| Json.Get | app/data.py:75 | indexing a record succeeds exactly when the key is present and gives its value; a missing key is a KeyError on that key |
| Countries.LookupCode | app/data.py:41-48 | the code lookup finds a country exactly when the code is a non-empty string that some reference record has as its alpha-2 code; what it returns is such a record |
| Countries.LookupName | app/data.py:50-57 | the name lookup is absent exactly for a falsy or non-string name; on a hit it returns a record with exactly that name; on a miss, exactly when no record has that name, it returns the name itself unchanged |
| Countries.Alias | app/data.py:64 | `CMAP.get(name, name)`: a string is replaced by its alias if it has one; other values pass through; a JSON object fails as an unhashable key |
| Countries.CountryFromName | app/data.py:63-70 | a string name is looked up under its alias; an object fails as unhashable; a non-zero number raises LookupError; a falsy name gives nothing |
| Countries.AliasThenLookup | app/data.py:10-17 | "USA" is looked up as "United States" and "Russia" as "Russian Federation"; a name without an alias is looked up as it is |
| Countries.UsaResolvesToUnitedStates | app/data.py:16 | whenever the reference table has a record named "United States", "USA" resolves to such a record |
| Countries.MissFallbacks | app/data.py:41-57 | on a miss the two lookups differ: by code there is nothing, by name the name comes back unchanged |
| Dates.ParseDate | app/data.py:149-157 | a successful parse is a valid calendar date (year 1 to 9999, a day that exists in its month, leap years included) whose "%Y-%m-%d" text is exactly the input |
| Dates.FormatThenParse | app/data.py:149-157 | parsing the "%Y-%m-%d" text of any valid date gives that date back |
| Dates.ExampleBirthDate | app/data.py:180 | the example record's birth date "1896-02-28" parses to 28 February 1896 |
| CountryCodes.CodeMember | app/data.py:36 | a value adds itself to the person-code set when truthy and nothing when falsy; a JSON object cannot be a set element |
| CountryCodes.PersonCodesOf | app/data.py:34-37 | one record's person codes can be read exactly when both code fields are present and neither is an object; they are exactly its truthy birth and death codes |
| CountryCodes.PersonCodes | app/data.py:33-37 | the person-code comprehension succeeds exactly when every record is readable; the set holds exactly the truthy birth and death codes of all records |
| CountryCodes.OrgCountryCode | app/data.py:74-78 | a record contributes the alpha-2 code of its aliased country exactly when that name resolves to a record; a missing field, an object, or a name that does not resolve fails |
| CountryCodes.OrgCodes | app/data.py:72-80 | the organization codes exist exactly when every record's contribution succeeds; they are exactly the codes the records contribute |
| CountryCodes.OrgCodesStopAtFailure | app/data.py:74-78 | once a prefix of the records fails, the whole pass fails with that prefix's failure |
| CountryCodes.GetOrgCountryCodes | app/data.py:72-80 | the loop over the records computes exactly the organization codes, failure included |
| CountryCodes.CountryCodeSet | app/data.py:33-39 | the code set exists exactly when both passes succeed; it holds exactly the records' person codes and, as strings, their organization codes |
| CountryCodes.GetCountryCodes | app/data.py:33-39 | computes exactly the code set: the person codes first, then the organization codes |
| CountryCodes.CreateCountries | app/data.py:59-61 | one lookup per code, in a walk order that visits every code exactly once; the i-th country is the lookup of the i-th code |
| CountryCodes.Load | app/data.py:21-24 | loading succeeds exactly when the code set can be built, and fails with its failure otherwise; it keeps the records and that code set, and lists one country per code: in the walk order it returns, which visits every code exactly once, the i-th country is the lookup of the i-th code |
| Store.Tables.AddWinner | app/data.py:163-165 | inserting a winner appends it under the next free key, keeps the keys increasing and fresh, raises its own next free key by one, and leaves the other tables and their next free keys alone |
| Store.Tables.AddAddress | app/data.py:128-130 | inserting an address appends it under the next free key, keeps the keys increasing and fresh, raises its own next free key by one, and leaves the other tables and their next free keys alone |
| Store.Tables.AddOrganization | app/data.py:85-87 | inserting an organization appends it under the next free key, keeps the keys increasing and fresh, raises its own next free key by one, and leaves the other tables and their next free keys alone |
| Store.Database.InsertWinner | app/data.py:163-165 | the insert returns the generated key; the store afterwards is exactly the old one with the winner appended under that key |
| Store.Database.InsertAddress | app/data.py:128-131 | the insert returns the generated key; the store afterwards is exactly the old one with the address appended under that key |
| Store.Database.InsertOrganization | app/data.py:84-87 | the insert returns the generated key; the store afterwards is exactly the old one with the organization appended under that key |
| Import.DateCell | app/data.py:149-157 | a date column is stored as is when falsy; a truthy one must parse, and is then stored as a valid date whose text is the source string |
| Import.DateCellOfParsed | app/data.py:149-152 | a date string that parses is stored as the parsed date |
| Import.WinnerFor | app/data.py:136-158 | the winner row exists exactly when both dates are present and readable; it holds exactly the record's winner fields: the five plain ones copied, the dates parsed |
| Import.CompleteWinner | app/data.py:136-158 | a record with all seven winner fields gives the row of exactly those seven |
| Import.MotivationDropped | app/data.py:136-147 | neither the motivation nor the overall motivation reaches the winner row |
| Import.FirstIndex | app/data.py:93-97 | the position of the first wanted field of the list; none exactly when no field of the list is wanted |
| Import.FirstValue | app/data.py:93-97 | the value of the first wanted field; StopIteration when there is none; KeyError when the record lacks it |
| Import.AddressFor | app/data.py:91-126 | the city is the first city field of the list. The country is resolved by name when "country" is listed, otherwise looked up by the first code field. The point is the record's point when listed and truthy, otherwise the origin. Each owner key is set, to the owner, exactly when its field is listed |
| Import.BornAddress | app/data.py:159-167 | the birth address fails only on a missing field; otherwise it is the birth city and the looked-up birth code at the origin, with no owner key |
| Import.DiedAddress | app/data.py:160-168 | the death address fails only on a missing field; otherwise it is the death city and the looked-up death code at the origin, with no owner key |
| Import.OrgAddress | app/data.py:161-169 | the organization address exists exactly when city, country and point are present, the country name does not stay a plain string, and a truthy point is a point; it is owned by the organization and by nothing else |
| Import.OrgAddressUnresolved | app/data.py:98-115 | a country name that stays a plain string fails only when the row is built: a missing point fails first with a KeyError, a truthy non-object point with its own failure, and otherwise the failure is the unresolved name |
| Import.RecordImportChain | app/data.py:163-169 | a record that imports is exactly five inserts: winner, birth address, death address, organization owned by the winner, and the organization's address owned by the organization |
| Import.RecordImportRows | app/data.py:133-171 | a record that imports appends exactly one winner, three addresses and one organization after the existing rows, under consecutive keys, with the owner keys above |
| Import.WinnerKeptWhenBornAddressFails | app/data.py:163-167 | a record whose birth address fails leaves the store with its winner row appended, and reports that address's failure |
| Import.BirthKeptWhenDiedAddressFails | app/data.py:163-168 | a record whose death address fails leaves its winner row and birth address appended, and reports that address's failure |
| Import.OrganizationKeptWhenItsAddressFails | app/data.py:82-88 | a record whose organization address fails leaves its winner, both person addresses and the organization row, owned by the winner, appended, and reports that address's failure |
| Import.AddressInsertAppendsOnly | app/data.py:128-131 | an address insert only appends and keeps every table's keys increasing and fresh |
| Import.OrganizationInsertAppendsOnly | app/data.py:82-89 | an organization insert, with its address, only appends and keeps the keys valid |
| Import.RecordImportAppendsOnly | app/data.py:135-169 | one record, whether it finishes or stops partway, only appends and keeps the keys valid |
| Import.ImportAppendsOnly | app/data.py:133-171 | the whole import, finished or stopped, only appends to every table and keeps the keys increasing and fresh |
| Import.ImportCounts | app/data.py:135-169 | an import that finishes adds exactly one winner, three addresses and one organization per record |
| Import.ImportLast | app/data.py:135 | an import that finishes finished its prefix, then imported the last record on the store the prefix left |
| Import.ImportRowsOfRecord | app/data.py:163-169 | in an import that finishes, the i-th new winner is record i's winner row; the i-th new organization is named after record i and owned by that winner; the address at 3i+2 is owned by that organization |
| Import.NoDeduplication | app/data.py:82-89 | two records of an import get two distinct organization rows and two distinct organization addresses, even when they name the same organization or city |
| Import.ImportSnoc | app/data.py:135 | importing one more record is importing it on the store the shorter prefix left |
| Import.ImportStopsAtFailure | app/data.py:133-171 | once a prefix of the records fails, the import ends there; the rows committed before the failure stay |
| Import.CreateAddress | app/data.py:91-131 | the method leaves exactly the store and key (or failure) that the address insert function computes |
| Import.CreateOrganization | app/data.py:82-89 | the method inserts the organization, then its address owned by the new organization, and leaves exactly what the organization insert function computes |
| Import.PopulateDb | app/data.py:133-171 | the loop leaves exactly the store and failure of the import function `ImportAll` on the loaded records, keeping the keys valid |
| Example.HenchImport | app/data.py:176-203 | the example record imports into an empty store as one winner (key 1); birth and death addresses with no owner key; the Mayo Clinic, owned by winner 1; and the clinic's address in Rochester at its point, owned by organization 1 |
| Example.HenchCountryCodes | app/data.py:176-203 | the example record's code set is {"US", "JM"}; the organization's "USA" resolves to "US", which is already there |

## Left out

- Countries.LookupCode, Countries.LookupName: pycountry matches names and codes case-insensitively. The model matches exactly, and a table with duplicate entries answers with its first hit.
- JSON values: the model has no booleans and no arrays, and its only object is `Point`, a two-member object that also stands for any object where the importer fails on one (unhashable as a dictionary key or set element). An empty object `{}`, which is falsy and skipped at app/data.py:36, and a `geo_point_2d` with other than two members, which fails to unpack at app/data.py:110, cannot be expressed.
- Dates.ParseDate: the model accepts exactly a four-digit year and a two-digit month and day, in ASCII digits. `strptime` also reads one-digit months and days, a day padded with a space (" 8"), and non-ASCII decimal digits. The model refuses those strings.
- Reading the JSON file (`get_data`), the `print` calls, and the module-level run at the end of `app/data.py` are I/O. The model starts from the parsed records and has no output.
- The session and engine (`db.py`), the table declarations (`models.py`, `model.py`) and the HTTP service (`main.py`) are not part of this model. A table appears only as the rows the importer inserts, and a generated key as a per-table counter starting at 1.
- Street and zip columns of an address are never set by the importer and are not modelled.
- Keys outside the 23 laureate keys cannot occur in a record of the model. They would never be read by the importer.
- Numbers are whole numbers, and coordinates are reals that are only copied. No floating-point behaviour is modelled.
- CountryCodes.CreateCountries, CountryCodes.Load: Python's set iteration order is not modelled. Both methods return the order they chose as `order`, and their contracts hold for every order.
- Concurrency and transactions are left out. Every insert commits at once, as in the source, so a failure leaves earlier rows in place.
