/** The CRM store (`CRMData`) and the request handlers that read and change
    it. Each handler is one atomic operation on the store; the caller's
    authentication and the HTTP layer around it are not modelled. */
module Crm {
  import opened Common
  import opened Tables
  import opened Models
  import opened Dates
  import opened Warranty
  import opened RecordIdentifiers
  import SerialNumbers
  import opened SampleData

  const ProductNotFound: HttpError := HttpError(404, "Product not found")
  const CustomerNotFound: HttpError := HttpError(404, "Customer not found")
  const NoPurchasesFound: HttpError := HttpError(404, "No purchases found for this customer")
  const EmailVerificationFailed: HttpError := HttpError(403, "Customer email verification failed")
  const ServiceRecordNotFound: HttpError := HttpError(404, "Service record not found")

  /** `WarrantyQuery(serial_number=..., customer_email=...)`: building the
      request body runs the serial-number validator, and a malformed serial
      number is answered with 422 before any handler runs. */
  function NewWarrantyQuery(serialNumber: string, customerEmail: Option<string>): (r: Result<WarrantyQuery>)
    ensures r.Ok? <==> SerialNumbers.WellFormedSerial(serialNumber)
    ensures r.Ok? ==> r.value == WarrantyQuery(serialNumber, customerEmail)
    ensures r.Err? ==> r.error.statusCode == 422
  {
    match SerialNumbers.ValidateSerialNumber(serialNumber)
    case Ok(v) => Ok(WarrantyQuery(v, customerEmail))
    case Err(e) => Err(e)
  }

  /** The purchases filter: products owned by `customerId`. */
  function OwnedBy(customerId: string): (owned: Product -> bool)
    ensures forall p :: owned(p) <==> p.customerId == customerId
  {
    (p: Product) => p.customerId == customerId
  }

  /** The listing filter as a function on records. */
  function Matcher(f: ServiceRecordFilter): ServiceRecord -> bool
  {
    (r: ServiceRecord) => f.Matches(r)
  }

  /** Every customer is stored under its own id. */
  ghost predicate CustomersKeyed(customers: Table<Customer>)
  {
    forall id :: id in customers.rows ==> customers.rows[id].customerId == id
  }

  /** Every product is stored under its own serial number, and its owner is
      a stored customer. */
  ghost predicate ProductsKeyedAndOwned(products: Table<Product>, customers: Table<Customer>)
  {
    forall sn :: sn in products.rows ==>
      products.rows[sn].serialNumber == sn && products.rows[sn].customerId in customers.rows
  }

  /** A service record that is for a stored product and carries that
      product's owner as its customer. */
  ghost predicate RecordLinked(r: ServiceRecord, products: Table<Product>)
  {
    r.serialNumber in products.rows && r.customerId == products.rows[r.serialNumber].customerId
  }

  /** Every service record is stored under its own id and is linked to its
      product. */
  ghost predicate RecordsKeyedAndLinked(records: Table<ServiceRecord>, products: Table<Product>)
  {
    forall id :: id in records.rows ==> records.rows[id].recordId == id && RecordLinked(records.rows[id], products)
  }

  /** The service-record keys are the generated ids of records 1..n, in
      creation order. */
  ghost predicate RecordKeysGenerated(records: Table<ServiceRecord>)
  {
    records.keys == RecordIds(|records.keys|)
  }

  /** The store invariant over the three tables. */
  ghost predicate StoreInvariant(customers: Table<Customer>, products: Table<Product>, records: Table<ServiceRecord>)
  {
    && customers.Valid() && products.Valid() && records.Valid()
    && CustomersKeyed(customers)
    && ProductsKeyedAndOwned(products, customers)
    && RecordsKeyedAndLinked(records, products)
    && RecordKeysGenerated(records)
  }

  /** Writing a record under its own id, linked to its product, keeps the
      record table keyed and linked. */
  lemma PutKeepsRecordsLinked(records: Table<ServiceRecord>, products: Table<Product>, r: ServiceRecord)
    requires records.Valid() && RecordsKeyedAndLinked(records, products) && RecordLinked(r, products)
    ensures RecordsKeyedAndLinked(records.Put(r.recordId, r), products)
  {
  }

  /** Adding a linked record under the next generated id keeps the store
      invariant, and appends the record to the listing order. */
  lemma AppendKeepsInvariant(customers: Table<Customer>, products: Table<Product>,
                             records: Table<ServiceRecord>, r: ServiceRecord)
    requires StoreInvariant(customers, products, records)
    requires r.recordId == RecordId(|records.keys| + 1) && RecordLinked(r, products)
    ensures r.recordId !in records.rows
    ensures StoreInvariant(customers, products, records.Put(r.recordId, r))
    ensures records.Put(r.recordId, r).Values() == records.Values() + [r]
  {
    NextRecordIdFresh(records.keys);
    PutValues(records, r.recordId, r);
    PutKeepsRecordsLinked(records, products, r);
  }

  /** Overwriting a stored record with one that keeps its id, product and
      customer keeps the store invariant and the key order. */
  lemma OverwriteKeepsInvariant(customers: Table<Customer>, products: Table<Product>,
                                records: Table<ServiceRecord>, r: ServiceRecord)
    requires StoreInvariant(customers, products, records)
    requires r.recordId in records.rows
    requires r.serialNumber == records.rows[r.recordId].serialNumber
    requires r.customerId == records.rows[r.recordId].customerId
    ensures StoreInvariant(customers, products, records.Put(r.recordId, r))
    ensures records.Put(r.recordId, r).keys == records.keys
  {
    PutKeepsRecordsLinked(records, products, r);
  }

  /** Every seeded product's owner is a seeded customer. */
  lemma SeedOwnersExist(customers: Table<Customer>, products: Table<Product>)
    requires |customers.keys| == |CustomerSeed|
    requires forall j :: 0 <= j < |CustomerSeed| ==> customers.keys[j] == CustomerSeed[j].customerId
    requires customers.Valid() && products.Valid() && products.Values() == ProductSeed
    ensures forall sn :: sn in products.rows ==> products.rows[sn].customerId in customers.rows
  {
    assert customers.keys == ["CUST001", "CUST002", "CUST003", "CUST004", "CUST005"];
    forall sn | sn in products.rows
      ensures products.rows[sn].customerId in customers.rows
    {
      RowInValues(products, sn);
    }
  }

  /** Each seeded record is for a seeded product and carries its owner. */
  lemma SeedRecordsLinked(products: Table<Product>, records: Table<ServiceRecord>)
    requires |products.keys| == |ProductSeed|
    requires forall j :: 0 <= j < |ProductSeed| ==> products.keys[j] == ProductSeed[j].serialNumber
    requires products.Valid() && products.Values() == ProductSeed
    requires records.Valid() && records.Values() == ServiceRecordSeed
    ensures forall id :: id in records.rows ==> RecordLinked(records.rows[id], products)
  {
    assert products.rows["SN20240001"] == ProductSeed[0] by {
      assert products.Values()[0] == products.rows[products.keys[0]];
    }
    assert products.rows["SN20240003"] == ProductSeed[2] by {
      assert products.Values()[2] == products.rows[products.keys[2]];
    }
    forall id | id in records.rows
      ensures RecordLinked(records.rows[id], products)
    {
      RowInValues(records, id);
    }
  }

  /** The seeded record keys are the generated ids of records 1 and 2. */
  lemma SeedRecordKeysGenerated(records: Table<ServiceRecord>)
    requires |records.keys| == |ServiceRecordSeed|
    requires forall j :: 0 <= j < |ServiceRecordSeed| ==> records.keys[j] == ServiceRecordSeed[j].recordId
    ensures RecordKeysGenerated(records)
  {
    SeedRecordIds();
    assert records.keys == ["SRV001", "SRV002"];
  }

  /** The smart speaker sold to CUST001 has a warranty ending 2024-08-15:
      it reads as expired the day after, as expiring soon 26 days before,
      and as in force 45 days before. */
  lemma SeededWarrantyBuckets()
    ensures Classify(ProductSeed[1].warrantyEndDate, Ordinal(2024, 8, 16)) == Expired
    ensures Classify(ProductSeed[1].warrantyEndDate, Ordinal(2024, 7, 20)) == ExpiringSoon
    ensures Classify(ProductSeed[1].warrantyEndDate, Ordinal(2024, 7, 1)) == InForce
  {
  }

  class CrmStore {
    var customers: Table<Customer>
    var products: Table<Product>
    var serviceRecords: Table<ServiceRecord>

    /** The store invariant: each table is keyed by its rows' ids, products'
        owners and records' products exist, each record carries its product's
        owner, and the record keys are exactly the generated ids of records
        1..n, since records are only added by creation and never removed. */
    ghost predicate Valid()
      reads this
    {
      StoreInvariant(customers, products, serviceRecords)
    }

    /** `CRMData()`: three empty dicts, then the sample data. */
    constructor ()
      ensures Valid()
      ensures customers.Values() == CustomerSeed
      ensures products.Values() == ProductSeed
      ensures serviceRecords.Values() == ServiceRecordSeed
    {
      customers := Empty();
      products := Empty();
      serviceRecords := Empty();
      new;
      InitializeSampleData();
    }

    /** `_initialize_sample_data`: each seed list is written into its dict,
        keyed by the entity's id, in list order. */
    method InitializeSampleData()
      modifies this
      ensures Valid()
      ensures customers.Values() == CustomerSeed
      ensures products.Values() == ProductSeed
      ensures serviceRecords.Values() == ServiceRecordSeed
    {
      SeedCustomerIdsDistinct();
      SeedSerialNumbersDistinct();
      SeedRecordKeysDistinct();
      customers := Load(CustomerSeed, (c: Customer) => c.customerId);
      products := Load(ProductSeed, (p: Product) => p.serialNumber);
      serviceRecords := Load(ServiceRecordSeed, (r: ServiceRecord) => r.recordId);
      SeedOwnersExist(customers, products);
      SeedRecordsLinked(products, serviceRecords);
      SeedRecordKeysGenerated(serviceRecords);
    }

    /** `get_customer_by_id`: the customer stored under `customerId`, or 404. */
    function GetCustomerById(customerId: string): (r: Result<Customer>)
      reads this
      requires Valid()
      ensures r.Ok? <==> customerId in customers.rows
      ensures r.Ok? ==> r.value == customers.rows[customerId] && r.value.customerId == customerId
      ensures r.Err? ==> r.error == CustomerNotFound
    {
      if customerId in customers.rows then Ok(customers.rows[customerId]) else Err(CustomerNotFound)
    }

    /** `get_customer_purchases`: the products owned by `customerId`, in
        table order; an empty answer is refused with 404, so a customer
        without products and an unknown customer look the same. */
    function GetCustomerPurchases(customerId: string): (r: Result<seq<Product>>)
      reads this
      requires products.Valid()
      ensures r.Err? <==> forall p :: p in products.Values() ==> p.customerId != customerId
      ensures r.Err? ==> r.error == NoPurchasesFound
      ensures r.Ok? ==> forall p :: p in r.value <==> p in products.Values() && p.customerId == customerId
      ensures r.Ok? ==> r.value == Filter(products.Values(), OwnedBy(customerId))
    {
      var purchases := Filter(products.Values(), OwnedBy(customerId));
      assert forall p :: OwnedBy(customerId)(p) == (p.customerId == customerId);
      assert |purchases| > 0 ==> purchases[0] in purchases;
      if |purchases| == 0 then Err(NoPurchasesFound) else Ok(purchases)
    }

    /** `query_warranty`: 404 for an unknown serial number; 403 when an
        e-mail is given (non-empty) and the owner is missing or has another
        address; 404 when the owner is missing; otherwise the product's
        warranty fields, the owner's name and the status text of today's
        bucket. Reading the store only, it changes nothing. */
    function QueryWarranty(q: WarrantyQuery, today: int): (r: Result<WarrantyResponse>)
      reads this
      ensures r.Ok? <==>
        && q.serialNumber in products.rows
        && products.rows[q.serialNumber].customerId in customers.rows
        && (Supplied(q.customerEmail) ==>
              customers.rows[products.rows[q.serialNumber].customerId].email == q.customerEmail.value)
      ensures q.serialNumber !in products.rows ==> r == Err(ProductNotFound)
      ensures q.serialNumber in products.rows ==>
        var p := products.rows[q.serialNumber];
        var ownerKnown := p.customerId in customers.rows;
        && (Supplied(q.customerEmail)
              && (!ownerKnown || customers.rows[p.customerId].email != q.customerEmail.value)
            <==> r == Err(EmailVerificationFailed))
        && (!Supplied(q.customerEmail) && !ownerKnown <==> r == Err(CustomerNotFound))
        && (r.Ok? ==>
              && r.value.productName == p.productName
              && r.value.serialNumber == p.serialNumber
              && r.value.customerName == customers.rows[p.customerId].name
              && r.value.purchaseDate == p.purchaseDate
              && r.value.warrantyEndDate == p.warrantyEndDate
              && r.value.warrantyType == p.warrantyType
              && r.value.statusText == StatusText(Classify(p.warrantyEndDate, today)))
    {
      if q.serialNumber !in products.rows then Err(ProductNotFound)
      else
        var product := products.rows[q.serialNumber];
        if Supplied(q.customerEmail)
           && (product.customerId !in customers.rows
               || customers.rows[product.customerId].email != q.customerEmail.value)
        then Err(EmailVerificationFailed)
        else if product.customerId !in customers.rows then Err(CustomerNotFound)
        else
          var customer := customers.rows[product.customerId];
          Ok(WarrantyResponse(
            product.productName,
            product.serialNumber,
            customer.name,
            product.purchaseDate,
            product.warrantyEndDate,
            product.warrantyType,
            StatusText(Classify(product.warrantyEndDate, today))))
    }

    /** In a valid store every product's owner exists, so a warranty query
        fails only for an unknown serial number (404) or a supplied e-mail
        that is not the owner's (403). */
    lemma QueryWarrantyInValidStore(q: WarrantyQuery, today: int)
      requires Valid()
      ensures QueryWarranty(q, today).Ok? <==>
        q.serialNumber in products.rows
        && (Supplied(q.customerEmail) ==>
              customers.rows[products.rows[q.serialNumber].customerId].email == q.customerEmail.value)
      ensures QueryWarranty(q, today) != Err(CustomerNotFound)
    {
    }

    /** `create_service_record`: 404 and no change for an unknown serial
        number; otherwise a record under the next generated id, scheduled,
        owned by the product's owner, with the caller's fields copied and no
        actual duration or notes, appended to the table. */
    method CreateServiceRecord(req: ServiceRecordCreate) returns (r: Result<ServiceRecord>)
      requires Valid()
      modifies this`serviceRecords
      ensures Valid()
      ensures req.serialNumber !in products.rows ==>
        r == Err(ProductNotFound) && serviceRecords == old(serviceRecords)
      ensures req.serialNumber in products.rows ==>
        && r.Ok?
        && r.value.recordId == RecordId(|old(serviceRecords.keys)| + 1)
        && r.value.recordId !in old(serviceRecords.rows)
        && r.value.serialNumber == req.serialNumber
        && r.value.customerId == products.rows[req.serialNumber].customerId
        && r.value.serviceDate == req.serviceDate
        && r.value.serviceType == req.serviceType
        && r.value.description == req.description
        && r.value.technician == req.technician
        && r.value.status == Scheduled
        && r.value.estimatedDuration == req.estimatedDuration
        && r.value.actualDuration == None
        && r.value.notes == None
        && serviceRecords.rows == old(serviceRecords.rows)[r.value.recordId := r.value]
        && serviceRecords.Values() == old(serviceRecords.Values()) + [r.value]
    {
      if req.serialNumber !in products.rows {
        return Err(ProductNotFound);
      }
      var product := products.rows[req.serialNumber];
      var recordId := RecordId(serviceRecords.Len() + 1);
      var record := ServiceRecord(
        recordId,
        req.serialNumber,
        product.customerId,
        req.serviceDate,
        req.serviceType,
        req.description,
        req.technician,
        Scheduled,
        req.estimatedDuration,
        None,
        None);
      AppendKeepsInvariant(customers, products, serviceRecords, record);
      serviceRecords := serviceRecords.Put(recordId, record);
      r := Ok(record);
      assert StoreInvariant(customers, products, serviceRecords);
    }

    /** `get_service_records`: the records that pass every supplied filter,
        in table order; no match is an empty list, not an error. */
    method GetServiceRecords(f: ServiceRecordFilter) returns (result: seq<ServiceRecord>)
      requires serviceRecords.Valid()
      ensures result == Filter(serviceRecords.Values(), Matcher(f))
      ensures forall r :: r in result <==> r in serviceRecords.Values() && f.Matches(r)
    {
      var records := serviceRecords.Values();
      var filtered: seq<ServiceRecord> := [];
      for i := 0 to |records|
        invariant filtered == Filter(records[..i], Matcher(f))
      {
        var record := records[i];
        ghost var next := Filter(records[..i + 1], Matcher(f));
        assert next == filtered + (if f.Matches(record) then [record] else []) by {
          assert records[..i + 1] == records[..i] + [record];
          FilterSnoc(records[..i], record, Matcher(f));
        }
        if Supplied(f.serialNumber) && record.serialNumber != f.serialNumber.value {
          continue;
        }
        if Supplied(f.customerId) && record.customerId != f.customerId.value {
          continue;
        }
        if f.status.Some? && record.status != f.status.value {
          continue;
        }
        filtered := filtered + [record];
      }
      assert records[..|records|] == records;
      result := filtered;
    }

    /** `update_service_record`: 404 and no change for an unknown id;
        otherwise the stored record gets every field the update supplies,
        in place, and nothing else in the store changes. */
    method UpdateServiceRecord(recordId: string, u: ServiceRecordUpdate) returns (r: Result<ServiceRecord>)
      requires Valid()
      modifies this`serviceRecords
      ensures Valid()
      ensures recordId !in old(serviceRecords.rows) ==>
        r == Err(ServiceRecordNotFound) && serviceRecords == old(serviceRecords)
      ensures recordId in old(serviceRecords.rows) ==>
        && r == Ok(ApplyUpdate(old(serviceRecords.rows[recordId]), u))
        && serviceRecords.keys == old(serviceRecords.keys)
        && serviceRecords.rows == old(serviceRecords.rows)[recordId := r.value]
    {
      if recordId !in serviceRecords.rows {
        return Err(ServiceRecordNotFound);
      }
      var record := AssignSuppliedFields(serviceRecords.rows[recordId], u);
      OverwriteKeepsInvariant(customers, products, serviceRecords, record);
      serviceRecords := serviceRecords.Put(recordId, record);
      r := Ok(record);
      assert StoreInvariant(customers, products, serviceRecords);
    }
  }

  /** Repeating an update on the table the first one produced leaves it as
      it is. */
  lemma UpdateTwiceIsUpdateOnce(t: Table<ServiceRecord>, id: string, u: ServiceRecordUpdate)
    requires t.Valid() && id in t.rows
    ensures var once := t.Put(id, ApplyUpdate(t.rows[id], u));
            once.Put(id, ApplyUpdate(once.rows[id], u)) == once
  {
    ApplyUpdateIdempotent(t.rows[id], u);
  }

  /** A record just created is listed, last, by every filter it passes. */
  lemma CreatedRecordListedLast(t: Table<ServiceRecord>, rec: ServiceRecord, f: ServiceRecordFilter)
    requires t.Valid() && rec.recordId !in t.rows && f.Matches(rec)
    ensures Filter(t.Put(rec.recordId, rec).Values(), Matcher(f)) == Filter(t.Values(), Matcher(f)) + [rec]
  {
    PutValues(t, rec.recordId, rec);
    FilterSnoc(t.Values(), rec, Matcher(f));
  }

  /** With no filter given, the listing is the whole table in order. */
  lemma NoFilterListsAll(t: Table<ServiceRecord>)
    requires t.Valid()
    ensures Filter(t.Values(), Matcher(ServiceRecordFilter(None, None, None))) == t.Values()
  {
    FilterAll(t.Values(), Matcher(ServiceRecordFilter(None, None, None)));
  }
}
