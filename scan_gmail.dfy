/** The Gmail scanning function (netlify/functions/scanGmail.js): for each
    listed message it selects the plain-text body, requires the Subject, From
    and Date headers, extracts a tracking number or Amazon order id, guesses
    the carrier from the From header, and writes a package record into a Map
    keyed by that id; the Map's values, minus the delivered ones, are the
    reply. The per-message work runs in list order here. */
module ScanGmail {
  import opened Options
  import opened Strings
  import opened Patterns
  import opened Carriers
  import opened GmailApi

  /** A package record as the scanner builds it. */
  datatype Package = Package(sender: string, carrier: Carrier, description: string,
                             trackingNumber: string, date: string, status: Status)

  // ---------------------------------------------------------------------------
  // Body selection (getPlainTextBody)

  predicate IsPlainText(part: Part) {
    part.mimeType == "text/plain"
  }

  /** `body.data` of the first `text/plain` part, when there is such a part. */
  function PlainPartData(p: Payload): (r: Option<string>)
    ensures (forall part :: part in p.parts.GetOr([]) ==> !IsPlainText(part)) ==> r == None
    ensures forall k :: 0 <= k < |p.parts.GetOr([])| && IsPlainText(p.parts.GetOr([])[k])
                        && (forall j :: 0 <= j < k ==> !IsPlainText(p.parts.GetOr([])[j])) ==>
                          r == p.parts.GetOr([])[k].data
  {
    match Find(p.parts.GetOr([]), IsPlainText)
    case Some(part) => part.data
    case None => None
  }

  /** getPlainTextBody: the decoded first `text/plain` part when it has data
      that decodes to non-empty text, otherwise the decoded top-level body
      data, otherwise the empty string. Data counts only when it is a
      non-empty string. */
  function PlainTextBody(m: Message, decode: string -> string): (body: string)
    ensures m.payload.None? ==> body == ""
    ensures m.payload.Some? ==>
      var plain := PlainPartData(m.payload.value);
      var top := m.payload.value.data;
      if Truthy(plain) && decode(plain.value) != "" then body == decode(plain.value)
      else if Truthy(top) then body == decode(top.value)
      else body == ""
  {
    match m.payload
    case None => ""
    case Some(p) =>
      var plain := PlainPartData(p);
      var fromPart := if Truthy(plain) then decode(plain.value) else "";
      if fromPart == "" && Truthy(p.data) then decode(p.data.value) else fromPart
  }

  /** Only the first `text/plain` part is looked at: when it carries no data,
      a later `text/plain` part with data is ignored and the top-level body
      is used instead. */
  lemma {:induction false} OnlyFirstPlainPartCounts(p: Payload, decode: string -> string, k: nat)
    requires p.parts.Some? && k < |p.parts.value|
    requires IsPlainText(p.parts.value[k]) && p.parts.value[k].data.None?
    requires forall j :: 0 <= j < k ==> !IsPlainText(p.parts.value[j])
    ensures PlainTextBody(Message(None, Some(p)), decode) == if Truthy(p.data) then decode(p.data.value) else ""
  {
    var r := FindIndexFrom(p.parts.value, IsPlainText, 0);
    assert r == Some(k);
  }

  // ---------------------------------------------------------------------------
  // Header check, carrier, sender

  /** The header names the scanner insists on (scanGmail.js line 56). */
  predicate HasRequiredHeaders(headers: seq<Header>): (b: bool)
    ensures b <==>
      && (exists h :: h in headers && h.name == "Subject")
      && (exists h :: h in headers && h.name == "From")
      && (exists h :: h in headers && h.name == "Date")
  {
    FindHeader(headers, "Subject").Some? && FindHeader(headers, "From").Some? && FindHeader(headers, "Date").Some?
  }

  /** The carrier guess from the From value: fedex, then ups, then usps, then
      amazon, tested on the lower-cased value. */
  function GmailCarrier(from: string): (c: Carrier)
    ensures c != Unknown ==> Contains(Lower(from), Lower(c.Name()))
    ensures c == Unknown <==>
      && !Contains(Lower(from), "fedex") && !Contains(Lower(from), "ups")
      && !Contains(Lower(from), "usps") && !Contains(Lower(from), "amazon")
  {
    LowerNames();
    var v := Lower(from);
    if Contains(v, "fedex") then FedEx
    else if Contains(v, "ups") then UPS
    else if Contains(v, "usps") then USPS
    else if Contains(v, "amazon") then Amazon
    else Unknown
  }

  const GmailRules: seq<Rule> := [Rule("fedex", FedEx), Rule("ups", UPS), Rule("usps", USPS), Rule("amazon", Amazon)]

  /** The if-chain is the ordered rule list fedex > ups > usps > amazon with
      Unknown as the default, applied to the lower-cased From value. */
  lemma GmailCarrierIsFirstRule(from: string)
    ensures GmailCarrier(from) == Classify(GmailRules, Lower(from), Unknown)
  {
    var v := Lower(from);
    assert FirstRuleFrom(GmailRules, v, 4) == None;
  }

  /** The guess ignores letter case. */
  lemma GmailCarrierIgnoresCase(from: string)
    ensures GmailCarrier(Lower(from)) == GmailCarrier(from)
  {
    LowerIdempotent(from);
  }

  /** No keyword of the chain occurs in a later one, so every branch,
      USPS included, is taken for some From value: the "ups" test does not
      hide the "usps" test. */
  lemma GmailEveryCarrierReachable()
    ensures GmailCarrier("fedex") == FedEx
    ensures GmailCarrier("ups") == UPS
    ensures GmailCarrier("usps") == USPS
    ensures GmailCarrier("amazon") == Amazon
    ensures GmailCarrier("") == Unknown
  {
    KeywordFacts();
  }

  /** `from.split('<')[0].replace(/"/g, '').trim()`. */
  function CleanSender(from: string): (r: string)
    ensures '"' !in r && '<' !in r
    ensures r == [] || (!IsSpace(r[0]) && !IsSpace(r[|r| - 1]))
  {
    var name := Before(from, '<');
    var unquoted := RemoveAll(name, '"');
    assert '<' !in unquoted by {
      assert multiset(unquoted)['<'] == multiset(name)['<'] == 0;
    }
    TrimKeepsOnly(unquoted, '"');
    TrimKeepsOnly(unquoted, '<');
    Trim(unquoted)
  }

  /** A sender that is already clean is left as it is, so cleaning twice is
      cleaning once. */
  lemma CleanSenderIdempotent(from: string)
    ensures CleanSender(CleanSender(from)) == CleanSender(from)
  {
    var s := CleanSender(from);
    assert Before(s, '<') == s;
    assert RemoveAll(s, '"') == s;
    assert TrimStart(s) == s;
    assert TrimEnd(s) == s;
  }

  // ---------------------------------------------------------------------------
  // One message

  /** The header-derived fields of `p`: the cleaned From value as sender,
      the carrier guessed from the From value, the Subject value as
      description and the formatted Date value as date. */
  ghost predicate FieldsFromHeaders(p: Package, headers: seq<Header>, env: Env) {
    && HasRequiredHeaders(headers)
    && var from := FindHeader(headers, "From").value.value;
    && p.sender == CleanSender(from)
    && p.carrier == GmailCarrier(from)
    && p.description == FindHeader(headers, "Subject").value.value
    && p.date == env.formatDate(FindHeader(headers, "Date").value.value)
  }

  /** The record one fetched message contributes, or None when the message is
      skipped: the fetch threw (None), the payload is missing (reading
      `payload.headers` throws), a required header is missing, or the body
      holds no identifier. */
  function ExtractPackage(fetched: Option<Message>, env: Env): (r: Option<Package>)
    ensures r.Some? <==>
      && fetched.Some? && fetched.value.payload.Some?
      && HasRequiredHeaders(fetched.value.payload.value.headers.GetOr([]))
      && Identifier(PlainTextBody(fetched.value, env.decode)).Some?
    ensures r.Some? ==>
      var body := PlainTextBody(fetched.value, env.decode);
      var id := r.value.trackingNumber;
      && id == Identifier(body).value
      && id != [] && Contains(body, id)
      && (TrackingShape(id) || OrderIdShape(id))
      && (r.value.status == Delivered <==> Contains(body, "has been delivered"))
    ensures r.Some? ==> FieldsFromHeaders(r.value, fetched.value.payload.value.headers.GetOr([]), env)
  {
    match fetched
    case None => None
    case Some(m) =>
      match m.payload
      case None => None
      case Some(p) =>
        var headers := p.headers.GetOr([]);
        var subject := FindHeader(headers, "Subject");
        var from := FindHeader(headers, "From");
        var date := FindHeader(headers, "Date");
        if subject.None? || from.None? || date.None? then None
        else
          var body := PlainTextBody(m, env.decode);
          match Identifier(body)
          case None => None
          case Some(id) =>
            Some(Package(
              CleanSender(from.value.value),
              GmailCarrier(from.value.value),
              subject.value.value,
              id,
              env.formatDate(date.value.value),
              if Contains(body, "has been delivered") then Delivered else InTransit))
  }

  // ---------------------------------------------------------------------------
  // The Map of unique packages

  /** A JavaScript Map from identifier to package: its keys in insertion order
      and its entries. */
  datatype Index = Index(order: seq<string>, entries: map<string, Package>)

  ghost predicate Distinct(xs: seq<string>) {
    forall i, j :: 0 <= i < j < |xs| ==> xs[i] != xs[j]
  }

  /** The insertion order lists each key of the Map exactly once. */
  ghost predicate OrderedKeys(idx: Index) {
    Distinct(idx.order) && forall k :: k in idx.entries <==> k in idx.order
  }

  /** Every entry is filed under its own tracking number. */
  ghost predicate KeyedByTrackingNumber(idx: Index) {
    forall k :: k in idx.entries ==> idx.entries[k].trackingNumber == k
  }

  /** `map.set(key, p)`: the key now holds exactly `p`, every other key keeps
      its entry, and a key already present keeps its place in the order. */
  function Put(idx: Index, key: string, p: Package): (r: Index)
    ensures key in r.entries && r.entries[key] == p
    ensures forall k :: k != key ==> (k in r.entries <==> k in idx.entries)
    ensures forall k :: k != key && k in idx.entries ==> r.entries[k] == idx.entries[k]
    ensures key in idx.entries ==> r.order == idx.order
    ensures key !in idx.entries ==> r.order == idx.order + [key]
    ensures OrderedKeys(idx) ==> OrderedKeys(r)
    ensures KeyedByTrackingNumber(idx) && p.trackingNumber == key ==> KeyedByTrackingNumber(r)
  {
    Index(if key in idx.entries then idx.order else idx.order + [key], idx.entries[key := p])
  }

  /** `Array.from(map.values())`: the entries in insertion order of their keys. */
  function InOrder(idx: Index): (vs: seq<Package>)
    requires OrderedKeys(idx)
    ensures |vs| == |idx.order|
    ensures forall i :: 0 <= i < |vs| ==> vs[i] == idx.entries[idx.order[i]]
    ensures forall p :: p in vs <==> p in idx.entries.Values
  {
    seq(|idx.order|, i requires 0 <= i < |idx.order| => idx.entries[idx.order[i]])
  }

  /** The Map after the records `ps` have been written in turn. */
  function Dedup(ps: seq<Package>): (idx: Index)
    ensures OrderedKeys(idx) && KeyedByTrackingNumber(idx)
  {
    if ps == [] then Index([], map[])
    else
      var last := ps[|ps| - 1];
      Put(Dedup(ps[..|ps| - 1]), last.trackingNumber, last)
  }

  /** The Map holds a key exactly when some written record has that tracking number. */
  lemma {:induction false} DedupKeys(ps: seq<Package>, key: string)
    ensures key in Dedup(ps).entries <==> exists i :: 0 <= i < |ps| && ps[i].trackingNumber == key
  {
    DedupKeySet(ps);
    IdsOfHolds(ps, key);
  }

  /** The tracking numbers of the records `ps`. */
  ghost function IdsOf(ps: seq<Package>): set<string> {
    if ps == [] then {} else IdsOf(ps[..|ps| - 1]) + {ps[|ps| - 1].trackingNumber}
  }

  lemma {:induction false} DedupKeySet(ps: seq<Package>)
    ensures Dedup(ps).entries.Keys == IdsOf(ps)
  {
    if ps != [] {
      DedupKeySet(ps[..|ps| - 1]);
    }
  }

  lemma {:induction false} IdsOfHolds(ps: seq<Package>, key: string)
    ensures key in IdsOf(ps) <==> exists i :: 0 <= i < |ps| && ps[i].trackingNumber == key
  {
    if ps != [] {
      var front := ps[..|ps| - 1];
      IdsOfHolds(front, key);
      if key in IdsOf(front) {
        var i :| 0 <= i < |front| && front[i].trackingNumber == key;
        assert ps[i].trackingNumber == key;
      } else if key != ps[|ps| - 1].trackingNumber {
        forall i | 0 <= i < |ps|
          ensures ps[i].trackingNumber != key
        {
          if i < |front| {
            assert ps[i] == front[i];
          }
        }
      }
    }
  }

  /** `ps[i]` is the last record written under `key`. */
  ghost predicate LastWith(ps: seq<Package>, key: string, i: int) {
    0 <= i < |ps| && ps[i].trackingNumber == key
    && forall j :: i < j < |ps| ==> ps[j].trackingNumber != key
  }

  /** The last write wins: the Map keeps, for each identifier, the record of
      the last message in processing order that carried it, whatever the
      dates of the messages are. */
  lemma {:induction false} DedupLastWins(ps: seq<Package>, key: string, i: int)
    requires LastWith(ps, key, i)
    ensures key in Dedup(ps).entries && Dedup(ps).entries[key] == ps[i]
  {
    var front := ps[..|ps| - 1];
    if i < |ps| - 1 {
      assert LastWith(front, key, i);
      DedupLastWins(front, key, i);
    }
  }

  /** `allPackages.filter(pkg => pkg.status !== "Delivered")`. */
  function Undelivered(ps: seq<Package>): (r: seq<Package>)
    ensures forall p :: p in r <==> p in ps && p.status != Delivered
    ensures forall p :: multiset(r)[p] == if p.status == Delivered then 0 else multiset(ps)[p]
    ensures DistinctIds(ps) ==> DistinctIds(r)
  {
    if ps == [] then []
    else
      assert ps == [ps[0]] + ps[1..];
      if ps[0].status == Delivered then Undelivered(ps[1..])
      else [ps[0]] + Undelivered(ps[1..])
  }

  ghost predicate DistinctIds(ps: seq<Package>) {
    forall i, j :: 0 <= i < j < |ps| ==> ps[i].trackingNumber != ps[j].trackingNumber
  }

  /** The reply lists each identifier at most once, and holds exactly the
      records that were written last under their identifier and are not
      delivered. */
  lemma ReplyProperties(ps: seq<Package>)
    ensures var reply := Undelivered(InOrder(Dedup(ps)));
      && DistinctIds(reply)
      && (forall p :: p in reply ==>
            p.status != Delivered && exists i :: LastWith(ps, p.trackingNumber, i) && ps[i] == p)
      && (forall i :: 0 <= i < |ps| && LastWith(ps, ps[i].trackingNumber, i) && ps[i].status != Delivered ==> ps[i] in reply)
  {
    var idx := Dedup(ps);
    var vs := InOrder(idx);
    assert DistinctIds(vs) by {
      forall i, j | 0 <= i < j < |vs|
        ensures vs[i].trackingNumber != vs[j].trackingNumber
      {
        assert vs[i].trackingNumber == idx.order[i];
        assert vs[j].trackingNumber == idx.order[j];
      }
    }
    forall p | p in vs
      ensures exists i :: LastWith(ps, p.trackingNumber, i) && ps[i] == p
    {
      var k :| k in idx.entries && idx.entries[k] == p;
      DedupKeys(ps, k);
      var i :| 0 <= i < |ps| && ps[i].trackingNumber == k;
      var last := LastIndex(ps, k, i);
      DedupLastWins(ps, k, last);
      assert LastWith(ps, p.trackingNumber, last) && ps[last] == p;
    }
    forall i | 0 <= i < |ps| && LastWith(ps, ps[i].trackingNumber, i)
      ensures ps[i] in vs
    {
      DedupLastWins(ps, ps[i].trackingNumber, i);
    }
  }

  /** The last index at or after `i` that carries `key`. */
  lemma LastIndex(ps: seq<Package>, key: string, i: int) returns (last: int)
    requires 0 <= i < |ps| && ps[i].trackingNumber == key
    ensures i <= last && LastWith(ps, key, last)
    decreases |ps| - i
  {
    if exists j :: i < j < |ps| && ps[j].trackingNumber == key {
      var j :| i < j < |ps| && ps[j].trackingNumber == key;
      last := LastIndex(ps, key, j);
    } else {
      last := i;
    }
  }

  /** The Map holds at most one record per identifier: a later message with
      the same id replaces the earlier record, so when that later message says
      "has been delivered" nothing is reported for the package, and when the
      messages come the other way round the in-transit record survives. */
  lemma LaterMessageReplacesEarlier(first: Package, second: Package)
    requires first.trackingNumber == second.trackingNumber
    ensures Dedup([first, second]).entries == map[first.trackingNumber := second]
    ensures second.status == Delivered ==> Undelivered(InOrder(Dedup([first, second]))) == []
    ensures first.status != Delivered ==> Undelivered(InOrder(Dedup([second, first]))) == [first]
  {
    var key := first.trackingNumber;
    assert [first, second][..1] == [first];
    assert [second, first][..1] == [second];
    assert [first][..0] == [];
    assert [second][..0] == [];
    assert Dedup([first]).entries == map[key := first];
    assert map[key := first][key := second] == map[key := second];
  }

  // ---------------------------------------------------------------------------
  // The handler

  /** The records `extract` yields for the listed messages, in list order,
      with the messages that yield none left out. */
  function Gather(ids: seq<string>, extract: string -> Option<Package>): (ps: seq<Package>)
    ensures |ps| <= |ids|
  {
    if ids == [] then []
    else
      var front := Gather(ids[..|ids| - 1], extract);
      match extract(ids[|ids| - 1])
      case None => front
      case Some(p) => front + [p]
  }

  /** One more message appends its record, if it yields one. */
  lemma GatherStep(ids: seq<string>, k: nat, extract: string -> Option<Package>)
    requires k < |ids|
    ensures Gather(ids[..k + 1], extract) ==
      match extract(ids[k])
      case None => Gather(ids[..k], extract)
      case Some(p) => Gather(ids[..k], extract) + [p]
  {
    assert ids[..k + 1][..k] == ids[..k];
  }

  /** Every message that yields a record contributes that record. */
  lemma {:induction false} GatherIncludes(ids: seq<string>, extract: string -> Option<Package>, k: nat)
    requires k < |ids| && extract(ids[k]).Some?
    ensures extract(ids[k]).value in Gather(ids, extract)
  {
    var front := ids[..|ids| - 1];
    if k < |front| {
      assert front[k] == ids[k];
      GatherIncludes(front, extract, k);
    }
  }

  /** Every record gathered is the record of some message. */
  lemma {:induction false} GatherFrom(ids: seq<string>, extract: string -> Option<Package>, p: Package)
    requires p in Gather(ids, extract)
    ensures exists k :: 0 <= k < |ids| && extract(ids[k]) == Some(p)
  {
    var front := ids[..|ids| - 1];
    if p in Gather(front, extract) {
      GatherFrom(front, extract, p);
      var k :| 0 <= k < |front| && extract(front[k]) == Some(p);
      assert ids[k] == front[k];
    }
  }

  /** The record each listed message yields. */
  function Extractor(env: Env): string -> Option<Package> {
    id => ExtractPackage(env.fetch(id), env)
  }

  /** The records the listed messages yield, in list order, skipped messages left out. */
  function Collected(ids: seq<string>, env: Env): (ps: seq<Package>)
    ensures |ps| <= |ids|
  {
    Gather(ids, Extractor(env))
  }

  /** One more listed message appends its record, if it yields one. */
  lemma CollectedStep(ids: seq<string>, k: nat, env: Env)
    requires k < |ids|
    ensures Collected(ids[..k + 1], env) ==
      match ExtractPackage(env.fetch(ids[k]), env)
      case None => Collected(ids[..k], env)
      case Some(p) => Collected(ids[..k], env) + [p]
  {
    GatherStep(ids, k, Extractor(env));
    assert Extractor(env)(ids[k]) == ExtractPackage(env.fetch(ids[k]), env);
  }

  /** Writing one more record is one more `set` on the Map. */
  lemma DedupAppend(ps: seq<Package>, p: Package)
    ensures Dedup(ps + [p]) == Put(Dedup(ps), p.trackingNumber, p)
  {
    assert (ps + [p])[..|ps|] == ps;
  }

  /** Every listed message that yields a record contributes that record: a
      well-formed message always reaches the Map. */
  lemma CollectedIncludes(ids: seq<string>, env: Env, k: nat)
    requires k < |ids| && ExtractPackage(env.fetch(ids[k]), env).Some?
    ensures ExtractPackage(env.fetch(ids[k]), env).value in Collected(ids, env)
  {
    assert Extractor(env)(ids[k]) == ExtractPackage(env.fetch(ids[k]), env);
    GatherIncludes(ids, Extractor(env), k);
  }

  /** A message without a Subject, From or Date header leaves the Map as it was. */
  lemma MissingHeaderLeavesMapUnchanged(ids: seq<string>, id: string, env: Env)
    requires env.fetch(id).Some? && env.fetch(id).value.payload.Some?
    requires !HasRequiredHeaders(env.fetch(id).value.payload.value.headers.GetOr([]))
    ensures Dedup(Collected(ids + [id], env)) == Dedup(Collected(ids, env))
  {
    CollectedStep(ids + [id], |ids|, env);
    assert (ids + [id])[..|ids| + 1] == ids + [id];
    assert (ids + [id])[..|ids|] == ids;
  }

  /** Every record collected is the record of some listed message. */
  lemma CollectedFromMessages(ids: seq<string>, env: Env, p: Package)
    requires p in Collected(ids, env)
    ensures exists k :: 0 <= k < |ids| && ExtractPackage(env.fetch(ids[k]), env) == Some(p)
  {
    GatherFrom(ids, Extractor(env), p);
    var k :| 0 <= k < |ids| && Extractor(env)(ids[k]) == Some(p);
    assert ExtractPackage(env.fetch(ids[k]), env) == Some(p);
  }

  /** The JavaScript Map `uniquePackages`, updated in place by `set`. */
  class PackageMap {
    var order: seq<string>
    var entries: map<string, Package>

    ghost predicate Valid()
      reads this
    {
      OrderedKeys(Index(order, entries))
    }

    function Snapshot(): Index
      reads this
    {
      Index(order, entries)
    }

    constructor ()
      ensures Valid() && Snapshot() == Index([], map[])
    {
      order := [];
      entries := map[];
    }

    method Set(key: string, p: Package)
      requires Valid()
      modifies this
      ensures Valid() && Snapshot() == Put(old(Snapshot()), key, p)
    {
      if key !in entries {
        order := order + [key];
      }
      entries := entries[key := p];
    }
  }

  /** The handler of scanGmail.js: 400 without a token, 500 when listing the
      messages fails, an empty list when there are no messages, and otherwise
      the undelivered values of the Map built from the messages in order. */
  method Handler(token: Option<string>, listing: Listing, env: Env) returns (resp: Response<Package>)
    ensures !Truthy(token) ==> resp == Response(400, Error("Missing token"))
    ensures Truthy(token) && listing.ListFailed? ==> resp == Response(500, Error("Failed to scan Gmail."))
    ensures Truthy(token) && listing.Listed? && (listing.messages.None? || listing.messages.value == []) ==>
      resp == Response(200, Items([]))
    ensures Truthy(token) && listing.Listed? && listing.messages.Some? && listing.messages.value != [] ==>
      resp == Response(200, Items(Undelivered(InOrder(Dedup(Collected(listing.messages.value, env))))))
  {
    if !Truthy(token) {
      return Response(400, Error("Missing token"));
    }
    if listing.ListFailed? {
      return Response(500, Error("Failed to scan Gmail."));
    }
    if listing.messages.None? || listing.messages.value == [] {
      return Response(200, Items([]));
    }
    var ids := listing.messages.value;
    var unique := new PackageMap();
    var k := 0;
    while k < |ids|
      invariant 0 <= k <= |ids|
      invariant unique.Valid()
      invariant unique.Snapshot() == Dedup(Collected(ids[..k], env))
    {
      CollectedStep(ids, k, env);
      var p := ExtractPackage(env.fetch(ids[k]), env);
      if p.Some? {
        DedupAppend(Collected(ids[..k], env), p.value);
        unique.Set(p.value.trackingNumber, p.value);
      }
      k := k + 1;
    }
    assert ids[..k] == ids;
    var all := InOrder(unique.Snapshot());
    resp := Response(200, Items(Undelivered(all)));
  }
}
