/** The earlier scanning function (netlify/functions/scanmail.js): one record
    per listed message, built from the From and Date headers and the message
    snippet, with no identifier, no deduplication and no filtering. An
    exception while building any one record fails the whole request. */
module ScanMail {
  import opened Options
  import opened Strings
  import opened Carriers
  import opened GmailApi

  /** A record of the earlier handler; it has no tracking number. */
  datatype Record = Record(sender: string, carrier: Carrier, description: string, date: string, status: Status)

  /** `fromHeader ? fromHeader.value.split('<')[0].trim() : 'Unknown Sender'`. */
  function Sender(from: Option<Header>): (r: string)
    ensures from.None? ==> r == "Unknown Sender"
    ensures from.Some? ==> '<' !in r && (r == [] || (!IsSpace(r[0]) && !IsSpace(r[|r| - 1])))
    ensures from.Some? ==>
      var name := Before(from.value.value, '<');
      TrimmedAt(name, r, |name| - |TrimStart(name)|)
  {
    if from.None? then "Unknown Sender"
    else
      var name := Before(from.value.value, '<');
      TrimKeepsOnly(name, '<');
      Trim(name)
  }

  /** The carrier guess of the earlier handler: ups, then fedex, then usps,
      tested on the lower-cased snippet, then amazon tested on the sender. */
  function SnippetCarrier(snippet: string, sender: string): (c: Carrier)
    ensures c in {UPS, FedEx, USPS} ==> Contains(Lower(snippet), Lower(c.Name()))
    ensures c == Amazon ==> Contains(Lower(sender), "amazon")
    ensures c == Unknown <==>
      && !Contains(Lower(snippet), "ups") && !Contains(Lower(snippet), "fedex")
      && !Contains(Lower(snippet), "usps") && !Contains(Lower(sender), "amazon")
  {
    LowerNames();
    var s := Lower(snippet);
    if Contains(s, "ups") then UPS
    else if Contains(s, "fedex") then FedEx
    else if Contains(s, "usps") then USPS
    else if Contains(Lower(sender), "amazon") then Amazon
    else Unknown
  }

  const SnippetRules: seq<Rule> := [Rule("ups", UPS), Rule("fedex", FedEx), Rule("usps", USPS)]

  /** The if-chain is the ordered rule list ups > fedex > usps on the
      lower-cased snippet, whose default is Amazon when the lower-cased sender
      contains "amazon" and Unknown otherwise. */
  lemma SnippetCarrierIsFirstRule(snippet: string, sender: string)
    ensures SnippetCarrier(snippet, sender)
         == Classify(SnippetRules, Lower(snippet), if Contains(Lower(sender), "amazon") then Amazon else Unknown)
  {
    assert FirstRuleFrom(SnippetRules, Lower(snippet), 3) == None;
  }

  /** Every outcome is reachable, USPS included; "amazon" in the snippet is
      never looked at, only in the sender. */
  lemma SnippetCarrierOutcomes()
    ensures SnippetCarrier("ups", "") == UPS
    ensures SnippetCarrier("fedex", "") == FedEx
    ensures SnippetCarrier("usps", "") == USPS
    ensures SnippetCarrier("", "amazon") == Amazon
    ensures SnippetCarrier("amazon", "") == Unknown
  {
    KeywordFacts();
  }

  /** The record built for one fetched message, or None when building it
      throws: the fetch failed, the payload or its header list is missing, or
      there is no snippet to lower-case. */
  function BuildRecord(fetched: Option<Message>, formatDate: string -> string): (r: Option<Record>)
    ensures r.Some? <==>
      fetched.Some? && fetched.value.snippet.Some?
      && fetched.value.payload.Some? && fetched.value.payload.value.headers.Some?
    ensures r.Some? ==>
      var headers := fetched.value.payload.value.headers.value;
      && r.value.status == InTransit
      && r.value.description == fetched.value.snippet.value
      && r.value.sender == Sender(FindHeader(headers, "From"))
      && r.value.carrier == SnippetCarrier(fetched.value.snippet.value, r.value.sender)
      && (FindHeader(headers, "Date").None? ==> r.value.date == "N/A")
      && (FindHeader(headers, "Date").Some? ==> r.value.date == formatDate(FindHeader(headers, "Date").value.value))
  {
    match fetched
    case None => None
    case Some(m) =>
      if m.payload.None? || m.payload.value.headers.None? || m.snippet.None? then None
      else
        var headers := m.payload.value.headers.value;
        var snippet := m.snippet.value;
        var from := FindHeader(headers, "From");
        var date := FindHeader(headers, "Date");
        var sender := Sender(from);
        var deliveryDate := if date.Some? then formatDate(date.value.value) else "N/A";
        Some(Record(sender, SnippetCarrier(snippet, sender), snippet, deliveryDate, InTransit))
  }

  /** `Promise.all(messages.map(...))`: the records in message order, or None
      as soon as building one of them throws. */
  function BuildAll(ids: seq<string>, env: Env): (r: Option<seq<Record>>)
    ensures r.Some? <==> forall k :: 0 <= k < |ids| ==> BuildRecord(env.fetch(ids[k]), env.formatDate).Some?
    ensures r.Some? ==> |r.value| == |ids|
    ensures r.Some? ==> forall k :: 0 <= k < |ids| ==> r.value[k] == BuildRecord(env.fetch(ids[k]), env.formatDate).value
  {
    if ids == [] then Some([])
    else
      var first := BuildRecord(env.fetch(ids[0]), env.formatDate);
      var rest := BuildAll(ids[1..], env);
      if first.None? || rest.None? then None
      else
        assert forall k :: 1 <= k < |ids| ==> ids[k] == ids[1..][k - 1];
        Some([first.value] + rest.value)
  }

  /** The handler of scanmail.js: 400 without a token, 500 when listing the
      messages or building any record fails, an empty list when there are no
      messages, and otherwise one record per message. */
  function Handler(token: Option<string>, listing: Listing, env: Env): (resp: Response<Record>)
    ensures !Truthy(token) ==> resp == Response(400, Error("Missing token"))
    ensures Truthy(token) && listing.ListFailed? ==> resp == Response(500, Error("Failed to scan Gmail."))
    ensures Truthy(token) && listing.Listed? && (listing.messages.None? || listing.messages.value == []) ==>
      resp == Response(200, Items([]))
    ensures Truthy(token) && listing.Listed? && listing.messages.Some? ==>
      var ids := listing.messages.value;
      && (resp.statusCode == 200 <==> forall k :: 0 <= k < |ids| ==> BuildRecord(env.fetch(ids[k]), env.formatDate).Some?)
      && (resp.statusCode != 200 ==> resp == Response(500, Error("Failed to scan Gmail.")))
      && (resp.statusCode == 200 ==> resp.body.Items? && |resp.body.items| == |ids|)
      && (resp.statusCode == 200 ==>
            forall k :: 0 <= k < |ids| ==>
              && resp.body.items[k] == BuildRecord(env.fetch(ids[k]), env.formatDate).value
              && resp.body.items[k].status == InTransit)
  {
    if !Truthy(token) then Response(400, Error("Missing token"))
    else if listing.ListFailed? then Response(500, Error("Failed to scan Gmail."))
    else if listing.messages.None? || listing.messages.value == [] then Response(200, Items([]))
    else
      match BuildAll(listing.messages.value, env)
      case None => Response(500, Error("Failed to scan Gmail."))
      case Some(records) => Response(200, Items(records))
  }
}
