/** The records the CRM store keeps and the request and response bodies of
    its handlers. Dates are day numbers and date-times minute counts (module
    Dates); e-mail addresses are plain strings. */
module Models {
  import opened Common

  /** A buyer. `lifetime_value`, a float no operation reads, is not kept. */
  datatype Customer = Customer(
    customerId: string,
    name: string,
    email: string,
    phone: string,
    address: string,
    registrationDate: int,
    dateOfBirth: Option<int>,
    notes: Option<string>,
    totalPurchases: int,
    supportCasesCount: int,
    communicationPreferences: seq<string>)

  /** One purchased unit, identified by its serial number. */
  datatype Product = Product(
    productId: string,
    serialNumber: string,
    productName: string,
    customerId: string,
    purchaseDate: int,
    warrantyEndDate: int,
    warrantyType: string,
    status: string)

  /** The ServiceStatus enum. */
  datatype ServiceStatus = Scheduled | Completed | Cancelled
  {
    /** The enum member's string value. */
    function Value(): string
    {
      match this
      case Scheduled => "scheduled"
      case Completed => "completed"
      case Cancelled => "cancelled"
    }
  }

  /** `ServiceStatus(s)`: the member whose value is `s`, if there is one
      (the request layer answers 422 otherwise). */
  function ParseServiceStatus(s: string): (r: Option<ServiceStatus>)
    ensures r.Some? ==> r.value.Value() == s
    ensures r.None? ==> forall st: ServiceStatus :: st.Value() != s
  {
    if s == "scheduled" then Some(Scheduled)
    else if s == "completed" then Some(Completed)
    else if s == "cancelled" then Some(Cancelled)
    else None
  }

  /** Every member is found again from its value. */
  lemma ParseServiceStatusValue(st: ServiceStatus)
    ensures ParseServiceStatus(st.Value()) == Some(st)
  {
  }

  /** One repair or service visit for a product. */
  datatype ServiceRecord = ServiceRecord(
    recordId: string,
    serialNumber: string,
    customerId: string,
    serviceDate: int,
    serviceType: string,
    description: string,
    technician: string,
    status: ServiceStatus,
    estimatedDuration: int,
    actualDuration: Option<int>,
    notes: Option<string>)

  /** The body of a service-record creation request. */
  datatype ServiceRecordCreate = ServiceRecordCreate(
    serialNumber: string,
    serviceType: string,
    description: string,
    technician: string,
    serviceDate: int,
    estimatedDuration: int)

  /** The body of a partial update: `None` leaves a field as it is. */
  datatype ServiceRecordUpdate = ServiceRecordUpdate(
    serviceDate: Option<int>,
    status: Option<ServiceStatus>,
    actualDuration: Option<int>,
    notes: Option<string>)

  /** The body of a warranty query. */
  datatype WarrantyQuery = WarrantyQuery(serialNumber: string, customerEmail: Option<string>)

  /** The answer to a warranty query. */
  datatype WarrantyResponse = WarrantyResponse(
    productName: string,
    serialNumber: string,
    customerName: string,
    purchaseDate: int,
    warrantyEndDate: int,
    warrantyType: string,
    statusText: string)

  /** The query parameters of the service-record listing. */
  datatype ServiceRecordFilter = ServiceRecordFilter(
    serialNumber: Option<string>,
    customerId: Option<string>,
    status: Option<ServiceStatus>)
  {
    /** A record is listed when it agrees with every filter that is given;
        a filter that is absent (or an empty string) lets every record
        through. */
    predicate Matches(r: ServiceRecord)
      ensures !Supplied(serialNumber) && !Supplied(customerId) && status.None? ==> Matches(r)
      ensures Matches(r) && Supplied(serialNumber) ==> r.serialNumber == serialNumber.value
      ensures Matches(r) && Supplied(customerId) ==> r.customerId == customerId.value
      ensures Matches(r) && status.Some? ==> r.status == status.value
    {
      && (Supplied(serialNumber) ==> r.serialNumber == serialNumber.value)
      && (Supplied(customerId) ==> r.customerId == customerId.value)
      && (status.Some? ==> r.status == status.value)
    }
  }

  /** The record after a partial update: every field the update supplies is
      overwritten, whatever the record held before (any status may follow
      any status), and every other field keeps its value. */
  function ApplyUpdate(r: ServiceRecord, u: ServiceRecordUpdate): (r': ServiceRecord)
    ensures r'.recordId == r.recordId && r'.serialNumber == r.serialNumber
    ensures r'.customerId == r.customerId && r'.serviceType == r.serviceType
    ensures r'.description == r.description && r'.technician == r.technician
    ensures r'.estimatedDuration == r.estimatedDuration
    ensures r'.serviceDate == if u.serviceDate.Some? then u.serviceDate.value else r.serviceDate
    ensures r'.status == if u.status.Some? then u.status.value else r.status
    ensures r'.actualDuration == if u.actualDuration.Some? then u.actualDuration else r.actualDuration
    ensures r'.notes == if u.notes.Some? then u.notes else r.notes
  {
    var r1 := if u.serviceDate.Some? then r.(serviceDate := u.serviceDate.value) else r;
    var r2 := if u.status.Some? then r1.(status := u.status.value) else r1;
    var r3 := if u.actualDuration.Some? then r2.(actualDuration := u.actualDuration) else r2;
    if u.notes.Some? then r3.(notes := u.notes) else r3
  }

  /** The handler's field assignments, one conditional per field of the
      update, applied to a copy of the stored record. */
  method AssignSuppliedFields(record: ServiceRecord, u: ServiceRecordUpdate) returns (updated: ServiceRecord)
    ensures updated == ApplyUpdate(record, u)
  {
    updated := record;
    if u.serviceDate.Some? {
      updated := updated.(serviceDate := u.serviceDate.value);
    }
    if u.status.Some? {
      updated := updated.(status := u.status.value);
    }
    if u.actualDuration.Some? {
      updated := updated.(actualDuration := u.actualDuration);
    }
    if u.notes.Some? {
      updated := updated.(notes := u.notes);
    }
  }

  /** An update that supplies nothing changes nothing. */
  lemma EmptyUpdateIsIdentity(r: ServiceRecord)
    ensures ApplyUpdate(r, ServiceRecordUpdate(None, None, None, None)) == r
  {
  }

  /** Applying the same update twice gives the record applying it once gives. */
  lemma ApplyUpdateIdempotent(r: ServiceRecord, u: ServiceRecordUpdate)
    ensures ApplyUpdate(ApplyUpdate(r, u), u) == ApplyUpdate(r, u)
  {
  }

  /** Of two successive updates, the later one wins on every field it
      supplies and the earlier one shows through elsewhere. */
  lemma ApplyUpdateSequence(r: ServiceRecord, u: ServiceRecordUpdate, v: ServiceRecordUpdate)
    ensures ApplyUpdate(ApplyUpdate(r, u), v) == ApplyUpdate(r, ServiceRecordUpdate(
      if v.serviceDate.Some? then v.serviceDate else u.serviceDate,
      if v.status.Some? then v.status else u.status,
      if v.actualDuration.Some? then v.actualDuration else u.actualDuration,
      if v.notes.Some? then v.notes else u.notes))
  {
  }
}
