# Package scanner model

A Dafny model of the mail-scanning core of a small delivery tracker. A
serverless function (`netlify/functions/scanGmail.js`) is given an OAuth
token, lists recent shipping-related Gmail messages, and turns each one
into a package record:

- it picks the message's plain-text body;
- it insists on Subject, From and Date headers;
- it extracts a tracking number, or else an Amazon order id;
- it guesses the carrier from the From header;
- it cleans up the sender name;
- it writes the record into a `Map` keyed by the identifier.

The reply is the Map's values minus the delivered ones. An earlier version
of the function (`netlify/functions/scanmail.js`) builds one record per
message from the snippet instead. The browser table
(`src/PackageTable.js`) turns a carrier and a tracking number into a
tracking link.

Modules (one file each):

- `Options` (options.dfy): the optional value used for JavaScript's
  `undefined`/`null`.
- `Strings` (strings.dfy): `toLowerCase`, `includes`, `split(c)[0]`,
  `replace(/c/g, '')` and `trim`, each with a contract that characterises
  its result.
- `Patterns` (patterns.dfy): the two regular expressions as shape
  predicates with `\b` word boundaries, and the leftmost-match scan of
  `String.prototype.match`.
- `Carriers` (carriers.dfy): the carrier and status values, and the
  if/else-if keyword chains as ordered rule lists.
- `GmailApi` (gmail.dfy): the message, listing and response shapes,
  `Array.prototype.find`, and `Env`, which bundles the calls into library
  code as function parameters.
- `ScanGmail` (scan_gmail.dfy): the current handler. `PackageMap` is a class
  for the `Map` it updates in place. `Dedup` is the function that specifies
  that class. `Handler` is a method whose loop is proved against `Dedup`.
- `ScanMail` (scan_mail.dfy): the earlier handler, as pure functions.
- `PackageTable` (package_table.dfy): `getTrackingUrl`.

What the proofs establish, beyond each function's own contract:

- A tracking-number match always covers the whole word it starts at, so the
  order of the five alternatives never changes the matched text
  (`MatchLength`). The leftmost match is unique (`LeftmostMatchUnique`).
- The carrier chains are ordered keyword rules. A rule can fire on some
  text if and only if no earlier keyword occurs inside its own keyword
  (`ShadowedRuleNeverFires`, `UnshadowedRuleFires`).
- "usps" is spelled u-s-p-s, so it does not contain "ups"
  (`UpsNotInUsps`). The `ups` test placed before the `usps` test therefore
  hides nothing. Both handlers produce "USPS" for a From value or snippet
  such as `usps` (`GmailEveryCarrierReachable`, `SnippetCarrierOutcomes`).
- The Map keeps the record of the last message, in processing order, that
  carried an identifier (`DedupLastWins`). It never compares dates: a
  "delivered" message processed last removes the package from the reply,
  and processed first it does not (`LaterMessageReplacesEarlier`).

Points of the code's behaviour that are easy to misread:

- Deduplication keeps the last record written; no dates are compared.
- The identifier is searched for in the decoded body only, never in the
  subject.
- "has been delivered" is matched case-sensitively.
- There is no shipper or arrival-date override, and no carrier fallback
  from the identifier's shape: a message whose From value names no carrier
  is Unknown whatever its identifier looks like.
- The date is the `toLocaleDateString()` string of the Date header, not a
  comparable value.

## Model

| member | source | states |
|---|---|---|
| Strings.Before | netlify/functions/scanGmail.js:75 | `split('<')[0]` is the longest prefix without `<`: the result has no `<` and is followed by `<` or by the end of the text |
| Strings.RemoveAll | netlify/functions/scanGmail.js:75 | `replace(/"/g, '')` leaves no `"`, keeps every other character with its multiplicity, and leaves text without `"` unchanged |
| Strings.RemoveAllAppend | netlify/functions/scanGmail.js:75 | removing a character distributes over concatenation, so the kept characters stay in their original order |
| Strings.Trim | netlify/functions/scanGmail.js:75 | `trim` cuts only ECMAScript white space from both ends, and the result neither starts nor ends with white space |
| Strings.Lower | netlify/functions/scanGmail.js:68 | `toLowerCase` keeps the length, turns each ASCII capital into the matching lower-case letter, and keeps every other character |
| Strings.ContainsTransitive | netlify/functions/scanGmail.js:68-71 | `includes` is transitive: text that contains a keyword contains everything the keyword contains |
| Strings.MissingCharNotContained | netlify/functions/scanGmail.js:68-71 | a text lacking one of a keyword's characters does not `includes` the keyword |
| Strings.TrimKeepsOnly | netlify/functions/scanGmail.js:75 | a character absent from a string is absent from its trimmed form |
| Patterns.TrackingSamples | netlify/functions/scanGmail.js:4 | a UPS number, 12 digits, 20 digits and 16 digits starting with 9 each fit a tracking alternative |
| Patterns.LogisticsPrefixIgnoresCase | netlify/functions/scanGmail.js:4 | with the `i` flag, `tba` followed by 12 digits fits the Amazon Logistics alternative |
| Patterns.TrackingGaps | netlify/functions/scanGmail.js:4 | a run of fewer than 12 digits, or of 16 to 19 digits not starting with 9, fits no tracking alternative |
| Patterns.OrderIdSample | netlify/functions/scanGmail.js:5 | `112-1234567-1234567` fits the order-id pattern |
| Patterns.ShapesDisjoint | netlify/functions/scanGmail.js:4-5 | no text fits both a tracking alternative and the order-id pattern |
| Patterns.MatchAtWordEdges | netlify/functions/scanGmail.js:4-5 | a match of either pattern is non-empty and is not preceded or followed by a word character, so it never sits inside a longer word |
| Patterns.MatchLength | netlify/functions/scanGmail.js:4-5 | a tracking match spans exactly the word at its start and an order-id match is 19 characters, so the order of the regex alternatives does not matter |
| Patterns.TrackingShapeIsWord | netlify/functions/scanGmail.js:4 | every text that fits a tracking alternative is a non-empty run of word characters |
| Patterns.FindFrom | netlify/functions/scanGmail.js:59-60 | the scan returns a position where the regex matches and no match starts between the scan start and it; None means no match at all |
| Patterns.FirstMatch | netlify/functions/scanGmail.js:59-60 | `match` yields text exactly when the regex matches somewhere, and the text is the leftmost match |
| Patterns.LeftmostMatchUnique | netlify/functions/scanGmail.js:59-60 | there is only one leftmost match, position and length |
| Patterns.FirstMatchIsShapedSubstring | netlify/functions/scanGmail.js:59-60 | the matched text has the pattern's shape and occurs in the body |
| Patterns.Identifier | netlify/functions/scanGmail.js:59-65 | an identifier exists iff either regex matches; it is non-empty, occurs in the body and is a tracking number or order id; with any tracking match it is the leftmost tracking match, otherwise the leftmost order id |
| Patterns.LogisticsNumberIsIdentifier | netlify/functions/scanGmail.js:4 | a body that is just `TBA123456789012` yields that text as its identifier |
| GmailApi.Find | netlify/functions/scanGmail.js:52-54 | `find` returns the first element of the list that passes the test, and None only when none passes |
| GmailApi.FindHeader | netlify/functions/scanGmail.js:52-54 | the header found has the exact name asked for; None iff no header has that name |
| GmailApi.FindHeaderFirst | netlify/functions/scanGmail.js:52-54 | with repeated names, the first such header is returned |
| Carriers.FirstRuleFrom | netlify/functions/scanGmail.js:67-71 | an if/else-if chain of `includes` tests picks the first rule whose keyword occurs in the text, or none when no keyword occurs |
| Carriers.ShadowedRuleNeverFires | netlify/functions/scanGmail.js:67-71 | a rule whose keyword contains an earlier rule's keyword never fires |
| Carriers.UnshadowedRuleFires | netlify/functions/scanGmail.js:67-71 | a rule that no earlier keyword shadows fires on its own keyword (the converse) |
| Carriers.UpsNotInUsps | netlify/functions/scanGmail.js:69-70 | "ups" does not occur in "usps" |
| ScanGmail.PlainPartData | netlify/functions/scanGmail.js:10-11 | the data of the first `text/plain` part, and none when there is no such part |
| ScanGmail.PlainTextBody | netlify/functions/scanGmail.js:7-20 | no payload gives ""; the first `text/plain` part is used if its data decodes to non-empty text; otherwise the top-level body data; otherwise "" |
| ScanGmail.OnlyFirstPlainPartCounts | netlify/functions/scanGmail.js:11-17 | when the first `text/plain` part has no data, later `text/plain` parts are ignored and the top-level data is used |
| ScanGmail.HasRequiredHeaders | netlify/functions/scanGmail.js:51-56 | the message goes on only when it has a Subject, a From and a Date header |
| ScanGmail.GmailCarrier | netlify/functions/scanGmail.js:67-71 | a guessed carrier's lower-cased name occurs in the lower-cased From value, and the guess is Unknown iff none of fedex, ups, usps and amazon occurs |
| ScanGmail.GmailCarrierIsFirstRule | netlify/functions/scanGmail.js:67-71 | the carrier chain equals the rule list fedex > ups > usps > amazon on the lower-cased From value, default Unknown |
| ScanGmail.GmailCarrierIgnoresCase | netlify/functions/scanGmail.js:68-71 | the carrier guess does not depend on letter case |
| ScanGmail.GmailEveryCarrierReachable | netlify/functions/scanGmail.js:67-71 | each of FedEx, UPS, USPS, Amazon and Unknown is the guess for some From value |
| ScanGmail.CleanSender | netlify/functions/scanGmail.js:75 | the cleaned sender has no `"`, no `<`, and no white space at either end |
| ScanGmail.CleanSenderIdempotent | netlify/functions/scanGmail.js:75 | cleaning a cleaned sender changes nothing |
| ScanGmail.ExtractPackage | netlify/functions/scanGmail.js:49-81 | a record exists iff the fetch succeeded, the payload is present, Subject/From/Date are present and the body has an identifier; its trackingNumber is that identifier; it is Delivered iff the body contains "has been delivered"; its sender is the cleaned From value, its carrier the guess from the From value, its description the Subject value and its date the formatted Date value |
| ScanGmail.Put | netlify/functions/scanGmail.js:74 | after `set(key, p)` the key holds exactly `p`, other keys are untouched, an existing key keeps its place, a new key goes last |
| ScanGmail.InOrder | netlify/functions/scanGmail.js:89 | `Array.from(map.values())` lists one value per key, in key insertion order, and exactly the Map's values |
| ScanGmail.Dedup | netlify/functions/scanGmail.js:45-81 | after any sequence of writes the Map's order lists each key once, and each record is filed under its own tracking number |
| ScanGmail.DedupKeys | netlify/functions/scanGmail.js:73-74 | the Map has a key iff some written record carries that tracking number |
| ScanGmail.DedupLastWins | netlify/functions/scanGmail.js:73-74 | each key holds the last record written with that tracking number |
| ScanGmail.Undelivered | netlify/functions/scanGmail.js:90 | the filter keeps exactly the non-Delivered records with their multiplicities, and keeps identifiers distinct |
| ScanGmail.ReplyProperties | netlify/functions/scanGmail.js:89-92 | the reply has distinct identifiers and holds exactly the records written last under their identifier that are not Delivered |
| ScanGmail.LaterMessageReplacesEarlier | netlify/functions/scanGmail.js:73-90 | two messages with one id leave only the later record; a later "delivered" empties the reply, an earlier one does not |
| ScanGmail.Collected | netlify/functions/scanGmail.js:47-85 | a message yields at most one record, so there are never more records than listed messages |
| ScanGmail.CollectedStep | netlify/functions/scanGmail.js:47-87 | the messages are handled one after another in list order: one more message appends its record, if it yields one, after all earlier records |
| ScanGmail.CollectedIncludes | netlify/functions/scanGmail.js:47-85 | every listed message that yields a record contributes that record |
| ScanGmail.CollectedFromMessages | netlify/functions/scanGmail.js:47-85 | every collected record is the record of some listed message |
| ScanGmail.MissingHeaderLeavesMapUnchanged | netlify/functions/scanGmail.js:51-56 | a message lacking Subject, From or Date leaves the Map as it was |
| ScanGmail.PackageMap.constructor | netlify/functions/scanGmail.js:45 | `new Map()` is empty |
| ScanGmail.PackageMap.Set | netlify/functions/scanGmail.js:74 | `set` changes the Map exactly as Put says |
| ScanGmail.Handler | netlify/functions/scanGmail.js:22-98 | 400 without a token, 500 when listing fails, [] for no messages, otherwise the undelivered values of the Map built by processing the messages in order |
| ScanMail.Sender | netlify/functions/scanmail.js:53 | "Unknown Sender" without a From header; otherwise the trimmed text before the first `<`, with no `<` and no white space at either end |
| ScanMail.SnippetCarrier | netlify/functions/scanmail.js:57-61 | UPS, FedEx or USPS only when its lower-cased name occurs in the lower-cased snippet, Amazon only when the sender contains "amazon", and Unknown iff none of the four tests passes |
| ScanMail.SnippetCarrierIsFirstRule | netlify/functions/scanmail.js:57-61 | the chain is the rule list ups > fedex > usps on the lower-cased snippet, then Amazon if the sender contains "amazon", else Unknown |
| ScanMail.SnippetCarrierOutcomes | netlify/functions/scanmail.js:57-61 | UPS, FedEx, USPS and Amazon are all produced, and "amazon" in the snippet alone gives Unknown |
| ScanMail.BuildRecord | netlify/functions/scanmail.js:39-69 | a record exists iff the fetch succeeded and payload, headers and snippet are present; its status is In Transit, its description is the snippet and its carrier is the snippet-and-sender guess; its date is "N/A" without a Date header and the formatted Date value otherwise |
| ScanMail.BuildAll | netlify/functions/scanmail.js:39-72 | the records exist iff every message's record does; then there is one record per message, in message order |
| ScanMail.Handler | netlify/functions/scanmail.js:4-86 | 400 without a token, 500 when listing or any record fails, [] for no messages, otherwise one In Transit record per message in order |
| PackageTable.TrackingUrl | src/PackageTable.js:4-23 | no link for a missing or empty number or "See Email"; any link is one of the three carrier prefixes followed by the number, or the order history page |
| PackageTable.TrackingUrlIgnoresCase | src/PackageTable.js:10 | "UPS", "ups" and "Ups" give the same link |
| PackageTable.TrackingUrlByCarrier | src/PackageTable.js:10-21 | ups/fedex/usps give their prefix followed by the number, which ends the link; amazon gives the order history whatever the number; any other carrier gives no link |
| PackageTable.ScannedRecordLink | src/PackageTable.js:4-23 | a record from the scanner gets its carrier's link, and no link when the carrier is Unknown |

## Left out

- The Gmail API and OAuth calls (`OAuth2`, `messages.list`, `messages.get`) are outside the model. The listing outcome is a `Listing` value and `get` is the `fetch` function of `Env`.
- Base64 decoding (`Buffer.from(..., 'base64').toString('utf8')`) and `new Date(...).toLocaleDateString()` are arbitrary functions (`Env.decode`, `Env.formatDate`). Both depend on library code, and the date also depends on locale and time zone.
- `Promise.all` fan-out: the messages are processed one after another in list order. In scanGmail.js the callbacks run concurrently, so which duplicate is written last depends on completion order. The model fixes that order to the listing order.
- Per-message exceptions in scanGmail.js are modelled as "no record" (None) for the cases the code can hit: a failed fetch or a missing payload. Exceptions from values of unexpected JavaScript types (a header value that is not a string, for example) are not modelled.
- `JSON.parse(event.body)` and a body that is not JSON are not modelled. The token is an optional string, falsy when missing or empty. Other falsy JSON values (`0`, `false`) are not modelled.
- `toLowerCase` and the regex `i` flag are modelled for ASCII letters only: a character outside ASCII keeps its case. For the regex flag this is exact, since without the `u` flag a non-ASCII character never matches an ASCII one. `toLowerCase`, however, lower-cases every non-ASCII capital that has a lower-case form (É, Ω, …). Two of them become ASCII letters: the Kelvin sign becomes `k`, and the dotted capital I becomes `i` followed by a combining dot. Neither `k` nor `i` occurs in "fedex", "ups", "usps" or "amazon". So the carrier guesses of both handlers and the carrier comparison of the package table come out the same under full Unicode lower-casing.
- Strings are sequences of Unicode characters, not UTF-16 code units.
- The React components (`App`, the table rendering, the bootstrapping in src/index.js) are UI with no stateable logic.
- ScanGmail.Handler: the reply's contents are stated; the JSON serialisation of the body is not.
