/** The warranty status a query reports: the product's warranty end date
    compared with today's date, both as day numbers. */
module Warranty {

  /** How many days before its end a warranty counts as expiring soon. */
  const ExpiringWindow: int := 30

  datatype WarrantyBucket = Expired | ExpiringSoon | InForce

  /** Buckets in the order time moves a warranty through them. */
  function Rank(b: WarrantyBucket): nat
  {
    match b
    case InForce => 0
    case ExpiringSoon => 1
    case Expired => 2
  }

  /** The bucket of a warranty ending on day `endDate`, seen on day `today`.
      The three buckets cover every pair of days and never overlap. */
  function Classify(endDate: int, today: int): (b: WarrantyBucket)
    ensures b == Expired <==> endDate < today
    ensures b == ExpiringSoon <==> 0 <= endDate - today <= ExpiringWindow
    ensures b == InForce <==> endDate - today > ExpiringWindow
  {
    if endDate < today then Expired
    else if endDate - today <= ExpiringWindow then ExpiringSoon
    else InForce
  }

  /** The status text the response carries for each bucket. */
  function StatusText(b: WarrantyBucket): (text: string)
    ensures |text| >= 4 && text[..2] == "保修"
  {
    match b
    case Expired => "保修已过期"
    case ExpiringSoon => "保修即将到期"
    case InForce => "保修有效"
  }

  /** The three texts are different, so the text determines the bucket. */
  lemma StatusTextInjective(a: WarrantyBucket, b: WarrantyBucket)
    ensures StatusText(a) == StatusText(b) ==> a == b
  {
    assert StatusText(Expired)[2] != StatusText(ExpiringSoon)[2];
    assert StatusText(Expired)[2] != StatusText(InForce)[2];
    assert |StatusText(ExpiringSoon)| != |StatusText(InForce)|;
  }

  /** As days pass, a warranty only moves forward through the buckets:
      in force, then expiring soon, then expired, never back. */
  lemma ClassifyMonotone(endDate: int, today: int, later: int)
    requires today <= later
    ensures Rank(Classify(endDate, today)) <= Rank(Classify(endDate, later))
  {
  }

  /** Only the distance to the end date matters. */
  lemma ClassifyShift(endDate: int, today: int, shift: int)
    ensures Classify(endDate + shift, today + shift) == Classify(endDate, today)
  {
  }
}
