# CRM store of the customer-support demo

A Dafny model of the in-memory CRM service in
`02-use-cases/customer-support/pre_build/crm_demo/crm_sample.py`. The service keeps
three insertion-ordered tables (customers by id, products by serial number,
service records by record id), seeds them with sample data, and answers six
requests on top of them:

- customer lookup;
- purchases lookup;
- warranty query, with e-mail verification and a three-way warranty status;
- service-record creation, with a generated `SRV…` id;
- service-record listing, with AND-combined filters;
- partial update of a service record.

Layout:

- `common.dfy` (`Common`) holds:
  - `Option`, `Result` and `HttpError`;
  - Python truthiness of an optional string (`Supplied`);
  - the order-preserving `Filter` that both the purchases comprehension and
    the listing loop compute.
- `tables.dfy` (`Tables`) models a Python dict: a map plus its keys in
  insertion order. It covers `len`, `values()`, `d[k] = v`, and filling a
  dict from a list.
- `record_ids.dfy` (`RecordIdentifiers`) covers `f"SRV{n:03d}"` and reading
  the number back, which gives injectivity and freshness of the next id.
- `serial_numbers.dfy` (`SerialNumbers`) covers the `[A-Z0-9]{8,20}` pattern
  as a backtracking matcher, and the serial-number validator as written and
  as intended (see Findings).
- `dates.dfy` (`Dates`) represents dates as proleptic Gregorian day numbers
  (`date.toordinal()`) and date-times as minutes on the same scale.
- `warranty.dfy` (`Warranty`) has the warranty buckets and their status
  texts.
- `models.dfy` (`Models`) has the record, request and response types, the
  `ServiceStatus` enum, the listing filter and the partial update.
- `sample_data.dfy` (`SampleData`) holds the seed data.
- `crm_store.dfy` (`Crm`) holds the store class `CrmStore` (`CRMData`) with
  its invariant, the six handlers, and lemmas relating them.

The store invariant (`Crm.StoreInvariant`, the class's `Valid()`) says:

- every table is keyed by its rows' own ids;
- every product's owner is a stored customer;
- every service record is for a stored product and carries that product's
  owner as its customer;
- the record keys are exactly `SRV001 … SRVn`, in creation order.

The seeded store satisfies it. Creation and update preserve it. Under it, the
id that creation generates is never an existing key.

The three read handlers are functions that read the store and change
nothing. Listing, creation and update are methods. Creation and update may
modify only the service-record table.

## Model

| member | source | states |
|---|---|---|
| Common.Filter | 02-use-cases/customer-support/pre_build/crm_demo/crm_sample.py:415 | the comprehension keeps exactly the elements that pass the test, and returns no more elements than the input |
| Common.Supplied | 02-use-cases/customer-support/pre_build/crm_demo/crm_sample.py:434 | Python truthiness of an optional string parameter: `None` and "" are both absent, and a supplied value has at least one character |
| Common.FilterConcat | 02-use-cases/customer-support/pre_build/crm_demo/crm_sample.py:415 | filtering a concatenation is the concatenation of the filtered parts, so the kept elements stay in table order |
| Common.FilterSnoc | 02-use-cases/customer-support/pre_build/crm_demo/crm_sample.py:507-514 | one loop step: the next element is appended exactly when it passes |
| Common.FilterAll | 02-use-cases/customer-support/pre_build/crm_demo/crm_sample.py:506-514 | when every element passes, the result is the input unchanged |
| Tables.Table.Len | 02-use-cases/customer-support/pre_build/crm_demo/crm_sample.py:476 | `len` of the dict is the number of keys in insertion order |
| Tables.Table.Values | 02-use-cases/customer-support/pre_build/crm_demo/crm_sample.py:503 | `values()` lists the row of each key, in insertion order |
| Tables.Table.Put | 02-use-cases/customer-support/pre_build/crm_demo/crm_sample.py:491 | assignment stores the row under the key, keeps the dict well formed, leaves the order alone for an existing key and appends a new key at the end |
| Tables.PutValues | 02-use-cases/customer-support/pre_build/crm_demo/crm_sample.py:491 | inserting a new key appends its row to `values()`; overwriting replaces the row in place and changes no other position |
| Tables.PutTwice | 02-use-cases/customer-support/pre_build/crm_demo/crm_sample.py:491 | assigning the same row twice is assigning it once |
| Tables.Empty | 02-use-cases/customer-support/pre_build/crm_demo/crm_sample.py:142-144 | `{}` has no keys and no rows |
| Tables.Load | 02-use-cases/customer-support/pre_build/crm_demo/crm_sample.py:363-372 | filling a dict from a list with distinct keys gives `values()` equal to the list, keys in list order, each row under its own key |
| RecordIdentifiers.Digits | 02-use-cases/customer-support/pre_build/crm_demo/crm_sample.py:476 | `str(n)`: never empty; DigitsAreDigits and DigitsValue show it is made of decimal digits that read back as n |
| RecordIdentifiers.ZeroPad | 02-use-cases/customer-support/pre_build/crm_demo/crm_sample.py:476 | the `03` in `:03d`: left-pads with '0' to at least the width, so the length is the larger of the width and the input's length |
| RecordIdentifiers.RecordId | 02-use-cases/customer-support/pre_build/crm_demo/crm_sample.py:476 | an id starts with "SRV" and is at least six characters long |
| RecordIdentifiers.DigitsAreDigits | 02-use-cases/customer-support/pre_build/crm_demo/crm_sample.py:476 | every character of `str(n)` is a decimal digit |
| RecordIdentifiers.RecordIdDigits | 02-use-cases/customer-support/pre_build/crm_demo/crm_sample.py:476 | after "SRV", a generated id consists of decimal digits only |
| RecordIdentifiers.RecordIds | 02-use-cases/customer-support/pre_build/crm_demo/crm_sample.py:476 | the ids of records 1..n, the i-th being the id generated for i |
| RecordIdentifiers.DigitsValue | 02-use-cases/customer-support/pre_build/crm_demo/crm_sample.py:476 | the decimal digits of n read back give n |
| RecordIdentifiers.RecordNumberOfRecordId | 02-use-cases/customer-support/pre_build/crm_demo/crm_sample.py:476 | reading the number back out of a generated id gives the number it was made from, zero padding included |
| RecordIdentifiers.RecordIdInjective | 02-use-cases/customer-support/pre_build/crm_demo/crm_sample.py:476 | different record counts give different ids |
| RecordIdentifiers.RecordIdsDistinct | 02-use-cases/customer-support/pre_build/crm_demo/crm_sample.py:476 | the ids of records 1..n are pairwise distinct |
| RecordIdentifiers.NextRecordIdFresh | 02-use-cases/customer-support/pre_build/crm_demo/crm_sample.py:476 | when the keys are the ids of records 1..n, the id made from the count plus one is not a key, and appending it gives the ids of records 1..n+1 |
| RecordIdentifiers.SingleDigitRecordId | 02-use-cases/customer-support/pre_build/crm_demo/crm_sample.py:476 | a one-digit count is padded with two zeros |
| RecordIdentifiers.SeedRecordIds | 02-use-cases/customer-support/pre_build/crm_demo/crm_sample.py:335-348 | the seeded ids "SRV001" and "SRV002" are the generated ids of records 1 and 2 |
| SerialNumbers.MatchFrom | 02-use-cases/customer-support/pre_build/crm_demo/crm_sample.py:103 | the backtracking matcher of `[A-Z0-9]{8,20}` followed by an end anchor; a match from a position leaves at least 8 characters in all, and, when at most 20 have been taken, at most 21 (20 plus the newline `$` lets through) |
| SerialNumbers.PatternMatches | 02-use-cases/customer-support/pre_build/crm_demo/crm_sample.py:103 | `re.match` of the whole pattern from the start of the string: whatever the anchor, a matched string has 8 to 21 characters (21 only with a trailing newline under `$`) |
| SerialNumbers.MatchFromEndOfString | 02-use-cases/customer-support/pre_build/crm_demo/crm_sample.py:103 | with an end-of-string anchor, the backtracking matcher succeeds exactly when the rest is class characters and brings the count to 8–20 |
| SerialNumbers.MatchFromDollar | 02-use-cases/customer-support/pre_build/crm_demo/crm_sample.py:103 | with Python's `$`, the matcher also succeeds when the class characters are followed by one final newline |
| SerialNumbers.PatternEndOfStringIsWellFormed | 02-use-cases/customer-support/pre_build/crm_demo/crm_sample.py:103 | the end-anchored pattern accepts exactly the strings of 8–20 upper-case letters and digits |
| SerialNumbers.PatternDollarAcceptsTrailingNewline | 02-use-cases/customer-support/pre_build/crm_demo/crm_sample.py:103 | the pattern as written accepts exactly those strings, plus those strings followed by one newline |
| SerialNumbers.ValidateSerialNumberAsWritten | 02-use-cases/customer-support/pre_build/crm_demo/crm_sample.py:100-105 | the validator as written: accepted (value unchanged) exactly in the cases above, otherwise 422 with the validator's message |
| SerialNumbers.TrailingNewlineAccepted | 02-use-cases/customer-support/pre_build/crm_demo/crm_sample.py:103 | "SN20240001\n" passes the validator as written although it is not a well-formed serial number |
| SerialNumbers.ValidateSerialNumber | 02-use-cases/customer-support/pre_build/crm_demo/crm_sample.py:100-105 | the intended validator: accepted (value unchanged) if and only if the length is 8–20 and every character is an upper-case ASCII letter or digit, otherwise 422 with the validator's message |
| SerialNumbers.ValidatorsAgreeWithoutTrailingNewline | 02-use-cases/customer-support/pre_build/crm_demo/crm_sample.py:103 | the two validators give the same answer on every string that does not end in a newline |
| Dates.Ordinal | 02-use-cases/customer-support/pre_build/crm_demo/crm_sample.py:157 | a valid calendar date has a positive day number |
| Dates.Minutes | 02-use-cases/customer-support/pre_build/crm_demo/crm_sample.py:338 | a date-time's minute count is at least one day's worth (a bound only; its meaning is in the next row) |
| Dates.MinutesOrder | 02-use-cases/customer-support/pre_build/crm_demo/crm_sample.py:338 | minute counts order date-times as the calendar does: a later day is later whatever the times, and on the same day the later time is later |
| Dates.FirstOrdinal | 02-use-cases/customer-support/pre_build/crm_demo/crm_sample.py:448 | 0001-01-01 is day 1 |
| Dates.YearLength | 02-use-cases/customer-support/pre_build/crm_demo/crm_sample.py:448 | a year has 366 days in a leap year and 365 otherwise |
| Dates.MonthLength | 02-use-cases/customer-support/pre_build/crm_demo/crm_sample.py:448 | the days before month m+1 are the days before month m plus the length of m |
| Dates.OrdinalNextDay | 02-use-cases/customer-support/pre_build/crm_demo/crm_sample.py:448 | the next calendar day, within a month, across a month end or across a year end, has the next day number, so subtracting day numbers counts days as `(a - b).days` does |
| Warranty.Classify | 02-use-cases/customer-support/pre_build/crm_demo/crm_sample.py:446-451 | expired if and only if the end date is before today; expiring soon if and only if it is 0 to 30 days away; in force if and only if more than 30 days away. The three cases cover every pair of dates and exclude each other |
| Warranty.StatusText | 02-use-cases/customer-support/pre_build/crm_demo/crm_sample.py:446-451 | the status text of each bucket ("保修已过期" expired, "保修即将到期" expiring soon, "保修有效" in force); every one starts with "保修" (warranty), and StatusTextInjective shows the text identifies the bucket |
| Warranty.StatusTextInjective | 02-use-cases/customer-support/pre_build/crm_demo/crm_sample.py:447-451 | the three status texts differ, so the text determines the bucket |
| Warranty.ClassifyMonotone | 02-use-cases/customer-support/pre_build/crm_demo/crm_sample.py:446-451 | as today moves later, a warranty only moves from in force to expiring soon to expired |
| Warranty.ClassifyShift | 02-use-cases/customer-support/pre_build/crm_demo/crm_sample.py:446-451 | only the distance between the end date and today decides the bucket |
| Models.ParseServiceStatus | 02-use-cases/customer-support/pre_build/crm_demo/crm_sample.py:73-77 | a string names a status exactly when it is that status's value; no status has any other value |
| Models.ParseServiceStatusValue | 02-use-cases/customer-support/pre_build/crm_demo/crm_sample.py:73-77 | every status is recovered from its value |
| Models.ServiceRecordFilter.Matches | 02-use-cases/customer-support/pre_build/crm_demo/crm_sample.py:508-513 | the loop's three `continue` tests combined (AND): with no filter given every record is listed, and a listed record agrees with the serial number and customer id when they are non-empty and with the status when it is present |
| Models.ApplyUpdate | 02-use-cases/customer-support/pre_build/crm_demo/crm_sample.py:531-538 | each of service date, status, actual duration and notes becomes the update's value when supplied and stays otherwise; every other field is unchanged; any status may replace any status |
| Models.AssignSuppliedFields | 02-use-cases/customer-support/pre_build/crm_demo/crm_sample.py:531-538 | the four conditional field assignments produce exactly the updated record above |
| Models.EmptyUpdateIsIdentity | 02-use-cases/customer-support/pre_build/crm_demo/crm_sample.py:531-538 | an update that supplies no field leaves the record as it was |
| Models.ApplyUpdateIdempotent | 02-use-cases/customer-support/pre_build/crm_demo/crm_sample.py:531-538 | applying the same update twice equals applying it once |
| Models.ApplyUpdateSequence | 02-use-cases/customer-support/pre_build/crm_demo/crm_sample.py:531-538 | of two updates applied in turn, the later one wins on each field it supplies, and the earlier one shows through elsewhere |
| SampleData.SeedCustomerIdsDistinct | 02-use-cases/customer-support/pre_build/crm_demo/crm_sample.py:150-221 | no two seeded customers share an id |
| SampleData.SeedSerialNumbersDistinct | 02-use-cases/customer-support/pre_build/crm_demo/crm_sample.py:224-330 | no two seeded products share a serial number |
| SampleData.SeedRecordKeysDistinct | 02-use-cases/customer-support/pre_build/crm_demo/crm_sample.py:333-360 | the two seeded records have different ids |
| Crm.NewWarrantyQuery | 02-use-cases/customer-support/pre_build/crm_demo/crm_sample.py:95-105 | building a warranty request body runs the corrected serial-number validator: the body is built, with both fields as given, exactly when the serial number is well formed, and the request is refused with 422 otherwise (the program as written also lets one trailing newline through; see Findings and Left out) |
| Crm.OwnedBy | 02-use-cases/customer-support/pre_build/crm_demo/crm_sample.py:415 | the comprehension's test: a product passes exactly when its customer id is the one asked for |
| Crm.PutKeepsRecordsLinked | 02-use-cases/customer-support/pre_build/crm_demo/crm_sample.py:491 | writing a record under its own id, linked to its product and that product's owner, keeps every record keyed and linked |
| Crm.AppendKeepsInvariant | 02-use-cases/customer-support/pre_build/crm_demo/crm_sample.py:476-491 | in a valid store the next generated id is not a key; inserting a linked record under it keeps the store invariant and appends the record to the listing order |
| Crm.OverwriteKeepsInvariant | 02-use-cases/customer-support/pre_build/crm_demo/crm_sample.py:526-540 | replacing a stored record by one with the same id, product and customer keeps the store invariant and the key order |
| Crm.SeedOwnersExist | 02-use-cases/customer-support/pre_build/crm_demo/crm_sample.py:224-330 | every seeded product's owner is a seeded customer |
| Crm.SeedRecordsLinked | 02-use-cases/customer-support/pre_build/crm_demo/crm_sample.py:333-360 | every seeded record is for a seeded product and carries that product's owner |
| Crm.SeedRecordKeysGenerated | 02-use-cases/customer-support/pre_build/crm_demo/crm_sample.py:333-360 | the seeded record keys are the generated ids of records 1 and 2 |
| Crm.SeededWarrantyBuckets | 02-use-cases/customer-support/pre_build/crm_demo/crm_sample.py:446-451 | the seeded smart speaker, whose warranty ends 2024-08-15, is expired on 2024-08-16, expiring soon on 2024-07-20 and in force on 2024-07-01 |
| Crm.CrmStore.constructor | 02-use-cases/customer-support/pre_build/crm_demo/crm_sample.py:141-145 | a new store satisfies the store invariant and lists exactly the seed customers, products and records, in seed order |
| Crm.CrmStore.InitializeSampleData | 02-use-cases/customer-support/pre_build/crm_demo/crm_sample.py:147-372 | seeding fills the three tables with the seed lists in order, keyed by id, and establishes the store invariant |
| Crm.CrmStore.GetCustomerById | 02-use-cases/customer-support/pre_build/crm_demo/crm_sample.py:403-406 | the customer is returned if and only if its id is a key, and it is the row stored under that id, carrying that id; otherwise 404 "Customer not found" |
| Crm.CrmStore.GetCustomerPurchases | 02-use-cases/customer-support/pre_build/crm_demo/crm_sample.py:415-418 | the answer is exactly the products owned by the customer, in table order; it is 404 "No purchases found for this customer" if and only if there are none |
| Crm.CrmStore.QueryWarranty | 02-use-cases/customer-support/pre_build/crm_demo/crm_sample.py:429-461 | the outcome for every case: success if and only if the serial number is known, its owner is stored and any non-empty e-mail given is the owner's; 404 for an unknown serial number; 403 if and only if a non-empty e-mail is given and the owner is missing or has another address; 404 "Customer not found" if and only if no e-mail is given and the owner is missing; otherwise the product's fields, the owner's name and the status text of today's bucket. It reads the store and changes nothing |
| Crm.CrmStore.QueryWarrantyInValidStore | 02-use-cases/customer-support/pre_build/crm_demo/crm_sample.py:429-442 | in a valid store a query succeeds if and only if the serial number is known and any given e-mail is the owner's, and "Customer not found" never occurs |
| Crm.CrmStore.CreateServiceRecord | 02-use-cases/customer-support/pre_build/crm_demo/crm_sample.py:471-492 | an unknown serial number gives 404 and no change. Otherwise a new record is returned and appended under a fresh id "SRV" + (count + 1), zero-padded. It is scheduled, belongs to the product's owner, copies the caller's fields and has no actual duration or notes. No other row changes, and the store invariant is kept |
| Crm.CrmStore.GetServiceRecords | 02-use-cases/customer-support/pre_build/crm_demo/crm_sample.py:503-516 | the loop returns exactly the records that pass every supplied filter, in table order; absent or empty filters pass everything, and no match is an empty list |
| Crm.CrmStore.UpdateServiceRecord | 02-use-cases/customer-support/pre_build/crm_demo/crm_sample.py:526-540 | an unknown id gives 404 and no change; otherwise the stored record becomes the update applied to it and is returned; every other record and the key order are unchanged, and the store invariant is kept |
| Crm.UpdateTwiceIsUpdateOnce | 02-use-cases/customer-support/pre_build/crm_demo/crm_sample.py:526-540 | repeating an update on the table the first one produced leaves the table as it is |
| Crm.CreatedRecordListedLast | 02-use-cases/customer-support/pre_build/crm_demo/crm_sample.py:491-516 | a record just created is listed last by every filter it passes, after the records that filter listed before |
| Crm.NoFilterListsAll | 02-use-cases/customer-support/pre_build/crm_demo/crm_sample.py:506-514 | with no filter given, the listing is the whole table in order |

## Left out

- Authentication (`get_current_user`, lines 383-393) is a blocking HTTP call to an external identity provider. The handlers take no user, and its 400 answer is not modelled.
- The FastAPI application, routing, JSON serialisation, the ping handler and the server start-up are framework plumbing.
- Pydantic `EmailStr` validation and normalisation are a library this model cannot see. E-mails are plain strings compared with `==`. So the model still lets an empty e-mail through as "not given", where the library would refuse it first.
- Crm.NewWarrantyQuery: uses the validator with the end-of-string anchor. The program as written also accepts a well-formed serial number followed by one "\n". The product lookup then fails, so the program answers 404 "Product not found" where the model answers 422. This follows the Findings row; the as-written validator is SerialNumbers.ValidateSerialNumberAsWritten.
- Pydantic's field coercion is not modelled. A request that fails the serial-number validator is answered with 422 and the validator's message. The real body is a pydantic error list.
- `Customer.lifetime_value` is dropped: it is a float that no operation reads. `WarrantyType` and `CustomerQuery` are declared but unused by the handlers, so they are not modelled.
- `date.today()` is a parameter (`today`) of the warranty query, so the clock is outside the model. Dates are day numbers. A `datetime` is a minute count, with seconds and time zones not represented.
- `ServiceRecord.status` is declared as `str`, but the store only ever holds the three enum values: the seed data, creation (`"scheduled"`) and updates (a `ServiceStatus`). It is modelled by the `ServiceStatus` datatype.
- In-place update: Python mutates the stored record object, which is the object it returns. The model writes an updated value back under the same key and returns that value. No other reference to a stored record exists in the store, so aliasing is not captured.
- Python integers are unbounded, and so is the model. Past record 999 the generated id grows to four or more digits, as `:03d` does. It does not stay at three digits.
- Concurrency: each handler is one atomic operation on the store.
- The agent configuration files that call this service as a tool are not part of this model. That includes a delete tool for which the service has no counterpart.

## Findings

| source | as written | input that shows it | evidently intended | confidence | as-written member | corrected member |
|---|---|---|---|---|---|---|
| 02-use-cases/customer-support/pre_build/crm_demo/crm_sample.py:103 | `re.match` with a pattern ending in `$`. In Python, `$` also matches just before a final newline, so a valid serial number followed by "\n" passes the check. | "SN20240001\n" | only 8–20 upper-case letters and digits and nothing else (`\Z` or `re.fullmatch`), as the validator's message says | not executed | SerialNumbers.TrailingNewlineAccepted | SerialNumbers.ValidateSerialNumber |
