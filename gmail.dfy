/** The shapes the handlers read from the Gmail API and hand back to the
    browser, and the calls into code outside the handlers, which the model
    takes as parameters. */
module GmailApi {
  import opened Options

  datatype Header = Header(name: string, value: string)

  /** A MIME part of the payload: its type and its `body.data` (base64 text), if any. */
  datatype Part = Part(mimeType: string, data: Option<string>)

  /** `msg.data.payload`: the header list, the MIME parts and the top-level `body.data`. */
  datatype Payload = Payload(headers: Option<seq<Header>>, parts: Option<seq<Part>>, data: Option<string>)

  /** `msg.data` of a message fetched with `format: 'full'`. */
  datatype Message = Message(snippet: Option<string>, payload: Option<Payload>)

  /** The outcome of `gmail.users.messages.list`: it throws, or its response
      carries a list of message ids that may be missing. */
  datatype Listing = ListFailed | Listed(messages: Option<seq<string>>)

  /** The calls the handlers make into library code: `gmail.users.messages.get`
      (None when it throws), `Buffer.from(data, 'base64').toString('utf8')`, and
      `new Date(value).toLocaleDateString()`. */
  datatype Env = Env(fetch: string -> Option<Message>, decode: string -> string, formatDate: string -> string)

  datatype Body<T> = Items(items: seq<T>) | Error(message: string)

  /** A handler's reply: `{ statusCode, body }`, the body before `JSON.stringify`. */
  datatype Response<T> = Response(statusCode: int, body: Body<T>)

  /** JavaScript truthiness of a possibly missing string: present and not empty. */
  predicate Truthy(s: Option<string>) {
    s.Some? && s.value != ""
  }

  /** `Array.prototype.findIndex` started at `from`. */
  function FindIndexFrom<T>(xs: seq<T>, test: T -> bool, from: nat): (r: Option<nat>)
    requires from <= |xs|
    ensures r.Some? ==> from <= r.value < |xs| && test(xs[r.value])
    ensures r.Some? ==> forall j :: from <= j < r.value ==> !test(xs[j])
    ensures r.None? ==> forall j :: from <= j < |xs| ==> !test(xs[j])
    decreases |xs| - from
  {
    if from == |xs| then None
    else if test(xs[from]) then Some(from)
    else FindIndexFrom(xs, test, from + 1)
  }

  /** `Array.prototype.find`: the first element that passes the test. */
  function Find<T>(xs: seq<T>, test: T -> bool): (r: Option<T>)
    ensures r.Some? ==> test(r.value) && r.value in xs
    ensures r.Some? ==> exists i :: 0 <= i < |xs| && xs[i] == r.value && forall j :: 0 <= j < i ==> !test(xs[j])
    ensures r.None? <==> forall x :: x in xs ==> !test(x)
  {
    match FindIndexFrom(xs, test, 0)
    case Some(i) => Some(xs[i])
    case None => None
  }

  /** `headers.find(h => h.name === name)`: names compare case-sensitively. */
  function FindHeader(headers: seq<Header>, name: string): (r: Option<Header>)
    ensures r.Some? ==> r.value.name == name && r.value in headers
    ensures r.None? <==> forall h :: h in headers ==> h.name != name
  {
    Find(headers, (h: Header) => h.name == name)
  }

  /** When two headers carry the same name, `find` returns the earlier one. */
  lemma FindHeaderFirst(headers: seq<Header>, name: string, k: nat)
    requires k < |headers| && headers[k].name == name
    requires forall j :: 0 <= j < k ==> headers[j].name != name
    ensures FindHeader(headers, name) == Some(headers[k])
  {
    var test := (h: Header) => h.name == name;
    var r := FindIndexFrom(headers, test, 0);
    assert test(headers[k]);
    assert r.Some? && r.value == k;
  }
}
