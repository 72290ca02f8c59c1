/** The two identifier patterns of the Gmail scanner and the way JavaScript's
    `String.prototype.match` applies a non-global regular expression: it
    returns the leftmost match.

    TRACKING_REGEX is `\b(1Z[A-Z0-9]{16}|\d{12,15}|\d{20,22}|9\d{15,21}|TBA\d{12})\b`
    with the `i` flag, AMAZON_ORDER_REGEX is `\b\d{3}-\d{7}-\d{7}\b`. Each is
    modelled as a shape predicate on the matched text plus the two word
    boundaries around it. */
module Patterns {
  import opened Options
  import opened Strings

  predicate AllDigits(w: string) {
    forall k :: 0 <= k < |w| ==> IsDigit(w[k])
  }

  /** `1Z[A-Z0-9]{16}`; the `i` flag lets `z` and lower-case letters match too. */
  predicate UpsShape(w: string) {
    |w| == 18 && w[0] == '1' && LowerChar(w[1]) == 'z'
    && forall k :: 2 <= k < 18 ==> IsAlnum(w[k])
  }

  /** `TBA\d{12}`, where the `i` flag accepts `tba` in any letter case. */
  predicate LogisticsShape(w: string) {
    |w| == 15 && Lower(w[..3]) == "tba" && AllDigits(w[3..])
  }

  /** The five alternatives of TRACKING_REGEX, in their source order. */
  predicate TrackingShape(w: string) {
    || UpsShape(w)
    || (12 <= |w| <= 15 && AllDigits(w))
    || (20 <= |w| <= 22 && AllDigits(w))
    || (16 <= |w| <= 22 && w[0] == '9' && AllDigits(w))
    || LogisticsShape(w)
  }

  /** `\d{3}-\d{7}-\d{7}`, an Amazon order id. */
  predicate OrderIdShape(w: string) {
    |w| == 19 && w[3] == '-' && w[11] == '-'
    && AllDigits(w[..3]) && AllDigits(w[4..11]) && AllDigits(w[12..])
  }

  datatype Pattern = TrackingNumber | OrderId

  predicate Shape(p: Pattern, w: string) {
    match p
    case TrackingNumber => TrackingShape(w)
    case OrderId => OrderIdShape(w)
  }

  predicate WordAt(s: string, k: int) {
    0 <= k < |s| && IsWordChar(s[k])
  }

  /** `\b` holds at position `k` of `s`. */
  predicate Boundary(s: string, k: int) {
    WordAt(s, k - 1) != WordAt(s, k)
  }

  /** The regular expression of `p` matches `s[i..i + n]` at position `i`. */
  predicate MatchAt(p: Pattern, s: string, i: int, n: int) {
    0 <= i && 0 <= n && i + n <= |s|
    && Boundary(s, i) && Boundary(s, i + n) && Shape(p, s[i..i + n])
  }

  /** The match at `i` that `match` reports: no pattern matches further left. */
  ghost predicate IsLeftmostMatch(p: Pattern, s: string, i: int, n: int) {
    MatchAt(p, s, i, n) && forall j, m :: 0 <= j < i ==> !MatchAt(p, s, j, m)
  }

  /** The end of the run of word characters that starts at `i`. */
  function WordEnd(s: string, i: nat): (j: nat)
    requires i <= |s|
    ensures i <= j <= |s|
    ensures forall k :: i <= k < j ==> IsWordChar(s[k])
    ensures j == |s| || !IsWordChar(s[j])
    decreases |s| - i
  {
    if i < |s| && IsWordChar(s[i]) then WordEnd(s, i + 1) else i
  }

  /** The only length a match of `p` at `i` can have. */
  function CandidateLength(p: Pattern, s: string, i: nat): nat
    requires i <= |s|
  {
    match p
    case TrackingNumber => WordEnd(s, i) - i
    case OrderId => 19
  }

  /** Every tracking number is a non-empty run of word characters. */
  lemma TrackingShapeIsWord(w: string)
    requires TrackingShape(w)
    ensures |w| > 0 && forall k :: 0 <= k < |w| ==> IsWordChar(w[k])
  {
    if LogisticsShape(w) {
      forall k | 0 <= k < |w|
        ensures IsWordChar(w[k])
      {
        if k < 3 {
          assert Lower(w[..3])[k] == LowerChar(w[k]);
        } else {
          assert w[k] == w[3..][k - 3];
        }
      }
    }
  }

  /** A sample of each digit-and-letter alternative of TRACKING_REGEX: a UPS
      number, 12 digits, 20 digits, and 16 digits starting with 9. */
  lemma TrackingSamples()
    ensures TrackingShape("1Z999AA10123456784")
    ensures TrackingShape("123456789012")
    ensures TrackingShape("12345678901234567890")
    ensures TrackingShape("9400111899223334")
  {
    var ups := "1Z999AA10123456784";
    assert forall k :: 2 <= k < 18 ==> IsAlnum(ups[k]);
  }

  /** The `i` flag lets the Amazon Logistics prefix be written in lower case. */
  lemma LogisticsPrefixIgnoresCase()
    ensures TrackingShape("tba123456789012")
  {
    var logistics := "tba123456789012";
    assert Lower(logistics[..3]) == "tba";
    assert AllDigits(logistics[3..]);
  }

  /** Digit runs the alternatives leave out: fewer than 12 digits, and 16 to
      19 digits that do not start with 9. */
  lemma TrackingGaps(w: string)
    requires AllDigits(w)
    requires |w| < 12 || (16 <= |w| <= 19 && w[0] != '9')
    ensures !TrackingShape(w)
  {
    if |w| == 18 {
      assert IsDigit(w[1]);
    }
  }

  /** A sample Amazon order id. */
  lemma OrderIdSample()
    ensures OrderIdShape("112-1234567-1234567")
  {
    var order := "112-1234567-1234567";
    assert AllDigits(order[..3]) && AllDigits(order[4..11]) && AllDigits(order[12..]);
  }

  /** No text is both a tracking number and an order id: an order id has a
      hyphen, which is not a word character. */
  lemma ShapesDisjoint(w: string)
    ensures !(TrackingShape(w) && OrderIdShape(w))
  {
    if TrackingShape(w) && |w| == 19 {
      TrackingShapeIsWord(w);
      assert IsWordChar(w[3]);
    }
  }

  /** Neither pattern matches inside a longer word: the characters just
      before and just after a match are not word characters. */
  lemma MatchAtWordEdges(p: Pattern, s: string, i: int, n: int)
    requires MatchAt(p, s, i, n)
    ensures n > 0
    ensures i == 0 || !IsWordChar(s[i - 1])
    ensures i + n == |s| || !IsWordChar(s[i + n])
  {
    var w := s[i..i + n];
    if p == TrackingNumber {
      TrackingShapeIsWord(w);
    } else {
      assert IsDigit(w[..3][0]) && IsDigit(w[12..][6]);
    }
    assert IsWordChar(w[0]) && IsWordChar(w[n - 1]);
    assert s[i] == w[0] && s[i + n - 1] == w[n - 1];
  }

  /** Because every alternative of TRACKING_REGEX consists of word characters
      and is closed by `\b`, a tracking match always covers the whole word it
      starts: the order of the alternatives never changes the matched text. */
  lemma MatchLength(p: Pattern, s: string, i: int, n: int)
    requires MatchAt(p, s, i, n)
    ensures n == CandidateLength(p, s, i)
  {
    if p == TrackingNumber {
      var w := s[i..i + n];
      TrackingShapeIsWord(w);
      var j := WordEnd(s, i);
      forall k | i <= k < i + n
        ensures IsWordChar(s[k])
      {
        assert s[k] == w[k - i];
      }
      assert WordAt(s, i + n - 1);
      assert !WordAt(s, i + n);
    }
  }

  lemma NoMatchAt(p: Pattern, s: string, i: nat)
    requires i <= |s| && !MatchAt(p, s, i, CandidateLength(p, s, i))
    ensures forall n :: !MatchAt(p, s, i, n)
  {
    forall n | MatchAt(p, s, i, n)
      ensures false
    {
      MatchLength(p, s, i, n);
    }
  }

  /** The regular-expression engine's scan: try each position from `from`
      onwards and stop at the first one where the pattern matches. */
  function FindFrom(p: Pattern, s: string, from: nat): (r: Option<nat>)
    requires from <= |s|
    ensures r.Some? ==> from <= r.value <= |s| && MatchAt(p, s, r.value, CandidateLength(p, s, r.value))
    ensures r.Some? ==> forall i, n :: from <= i < r.value ==> !MatchAt(p, s, i, n)
    ensures r.None? ==> forall i, n :: from <= i ==> !MatchAt(p, s, i, n)
    decreases |s| - from
  {
    if MatchAt(p, s, from, CandidateLength(p, s, from)) then Some(from)
    else
      NoMatchAt(p, s, from);
      if from == |s| then None else FindFrom(p, s, from + 1)
  }

  /** The regular expression of `p` matches somewhere in `s`. */
  ghost predicate Matches(p: Pattern, s: string) {
    exists i, n :: MatchAt(p, s, i, n)
  }

  /** `w` is the text of the leftmost match of `p` in `s`. */
  ghost predicate LeftmostText(p: Pattern, s: string, w: string) {
    exists i :: IsLeftmostMatch(p, s, i, |w|) && w == s[i..i + |w|]
  }

  /** `s.match(regex)[0]`, or None when `match` returns null. */
  function FirstMatch(p: Pattern, s: string): (r: Option<string>)
    ensures r.Some? <==> Matches(p, s)
    ensures r.Some? ==> LeftmostText(p, s, r.value)
  {
    match FindFrom(p, s, 0)
    case None => None
    case Some(i) =>
      var w := s[i..i + CandidateLength(p, s, i)];
      assert IsLeftmostMatch(p, s, i, |w|);
      Some(w)
  }

  /** There is only one leftmost match, so the text `match` reports is
      determined by the pattern and the string alone. */
  lemma LeftmostMatchUnique(p: Pattern, s: string, i: int, n: int, j: int, m: int)
    requires IsLeftmostMatch(p, s, i, n) && IsLeftmostMatch(p, s, j, m)
    ensures i == j && n == m
  {
    MatchLength(p, s, i, n);
    MatchLength(p, s, j, m);
  }

  /** A match is a piece of the searched text with the pattern's shape. */
  lemma FirstMatchIsShapedSubstring(p: Pattern, s: string)
    requires FirstMatch(p, s).Some?
    ensures Shape(p, FirstMatch(p, s).value)
    ensures Contains(s, FirstMatch(p, s).value)
  {
    var w := FirstMatch(p, s).value;
    var i :| IsLeftmostMatch(p, s, i, |w|) && w == s[i..i + |w|];
    assert OccursAt(s, w, i);
  }

  /** The message's unique id (scanGmail.js lines 59-63): the tracking
      number if the body has one, otherwise the Amazon order id. */
  function Identifier(body: string): (r: Option<string>)
    ensures r.Some? <==> Matches(TrackingNumber, body) || Matches(OrderId, body)
    ensures r.Some? ==> r.value != [] && Contains(body, r.value)
    ensures r.Some? ==> TrackingShape(r.value) || OrderIdShape(r.value)
    ensures Matches(TrackingNumber, body) ==>
      r.Some? && TrackingShape(r.value) && LeftmostText(TrackingNumber, body, r.value)
    ensures !Matches(TrackingNumber, body) && r.Some? ==> LeftmostText(OrderId, body, r.value)
  {
    var tracking := FirstMatch(TrackingNumber, body);
    var order := FirstMatch(OrderId, body);
    if tracking.Some? then
      FirstMatchIsShapedSubstring(TrackingNumber, body);
      tracking
    else if order.Some? then
      FirstMatchIsShapedSubstring(OrderId, body);
      order
    else None
  }

  /** An Amazon Logistics number alone in the body is the identifier. */
  lemma LogisticsNumberIsIdentifier()
    ensures Identifier("TBA123456789012") == Some("TBA123456789012")
  {
    var body := "TBA123456789012";
    assert Lower(body[..3]) == "tba";
    assert AllDigits(body[3..]);
    assert body[0..15] == body;
    assert IsLeftmostMatch(TrackingNumber, body, 0, 15);
    var r := Identifier(body).value;
    var i :| IsLeftmostMatch(TrackingNumber, body, i, |r|) && r == body[i..i + |r|];
    LeftmostMatchUnique(TrackingNumber, body, 0, 15, i, |r|);
  }
}
