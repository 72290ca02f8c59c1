/** The link the package table puts on a tracking number
    (src/PackageTable.js, getTrackingUrl): a carrier-specific tracking page,
    Amazon's order history, or no link. */
module PackageTable {
  import opened Options
  import opened Strings
  import opened Carriers
  import opened Patterns
  import opened GmailApi

  const UpsPrefix: string := "https://www.ups.com/track?tracknum="
  const FedExPrefix: string := "https://www.fedex.com/fedextrack/?trknbr="
  const UspsPrefix: string := "https://tools.usps.com/go/TrackConfirmAction?qtc_tLabels1="
  const AmazonOrderHistory: string := "https://www.amazon.com/gp/css/order-history"

  /** getTrackingUrl: null (None) for a missing or empty tracking number and
      for the placeholder "See Email"; otherwise chosen by the lower-cased
      carrier name. */
  function TrackingUrl(carrier: string, trackingNumber: Option<string>): (r: Option<string>)
    ensures !Truthy(trackingNumber) || trackingNumber.value == "See Email" ==> r == None
    ensures r.Some? ==>
      || r.value == UpsPrefix + trackingNumber.value
      || r.value == FedExPrefix + trackingNumber.value
      || r.value == UspsPrefix + trackingNumber.value
      || r.value == AmazonOrderHistory
  {
    if !Truthy(trackingNumber) || trackingNumber.value == "See Email" then None
    else
      var t := trackingNumber.value;
      match Lower(carrier)
      case "ups" => Some(UpsPrefix + t)
      case "fedex" => Some(FedExPrefix + t)
      case "usps" => Some(UspsPrefix + t)
      case "amazon" => Some(AmazonOrderHistory)
      case _ => None
  }

  /** Carrier names compare without regard to letter case. */
  lemma TrackingUrlIgnoresCase(carrier: string, trackingNumber: Option<string>)
    ensures TrackingUrl(Lower(carrier), trackingNumber) == TrackingUrl(carrier, trackingNumber)
  {
    LowerIdempotent(carrier);
  }

  /** For UPS, FedEx and USPS the link is the carrier's fixed prefix followed
      by the tracking number, so the tracking number ends the link; for
      Amazon the link is the order history whatever the number is; any other
      carrier gets no link. */
  lemma TrackingUrlByCarrier(carrier: string, t: string)
    requires t != "" && t != "See Email"
    ensures Lower(carrier) == "ups" ==> TrackingUrl(carrier, Some(t)) == Some(UpsPrefix + t)
    ensures Lower(carrier) == "fedex" ==> TrackingUrl(carrier, Some(t)) == Some(FedExPrefix + t)
    ensures Lower(carrier) == "usps" ==> TrackingUrl(carrier, Some(t)) == Some(UspsPrefix + t)
    ensures Lower(carrier) == "amazon" ==> TrackingUrl(carrier, Some(t)) == Some(AmazonOrderHistory)
    ensures Lower(carrier) !in ["ups", "fedex", "usps", "amazon"] ==> TrackingUrl(carrier, Some(t)) == None
    ensures TrackingUrl(carrier, Some(t)).Some? && Lower(carrier) != "amazon" ==>
      var url := TrackingUrl(carrier, Some(t)).value;
      |t| < |url| && url[|url| - |t|..] == t
  {
    var url := TrackingUrl(carrier, Some(t));
    if url.Some? && Lower(carrier) != "amazon" {
      var prefix := if Lower(carrier) == "ups" then UpsPrefix else if Lower(carrier) == "fedex" then FedExPrefix else UspsPrefix;
      assert url.value == prefix + t;
      assert url.value[|prefix|..] == t;
    }
  }

  /** A record produced by the Gmail scanner is linked by its carrier: the
      carrier's tracking page for UPS, FedEx and USPS, the order history for
      Amazon, and no link for Unknown. Its identifier is never the
      "See Email" placeholder. */
  lemma ScannedRecordLink(c: Carrier, id: string)
    requires TrackingShape(id) || OrderIdShape(id)
    ensures TrackingUrl(c.Name(), Some(id)) ==
      match c
      case UPS => Some(UpsPrefix + id)
      case FedEx => Some(FedExPrefix + id)
      case USPS => Some(UspsPrefix + id)
      case Amazon => Some(AmazonOrderHistory)
      case Unknown => None
  {
    assert |id| >= 12;
    var name := c.Name();
    assert Lower(name) == match c
      case UPS => "ups"
      case FedEx => "fedex"
      case USPS => "usps"
      case Amazon => "amazon"
      case Unknown => "unknown";
  }
}
