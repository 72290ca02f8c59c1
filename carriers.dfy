/** The fixed carrier and status values a package record can carry, and the
    keyword tests the handlers use to guess a carrier. Both handlers write
    their guess as an if/else-if chain of `includes` tests; the chain is the
    same thing as the first matching rule of an ordered list, and a rule
    whose keyword contains an earlier rule's keyword can never be chosen. */
module Carriers {
  import opened Options
  import opened Strings

  datatype Carrier = UPS | FedEx | USPS | Amazon | Unknown {
    /** The string the handlers put in the record's `carrier` field. */
    function Name(): string {
      match this
      case UPS => "UPS"
      case FedEx => "FedEx"
      case USPS => "USPS"
      case Amazon => "Amazon"
      case Unknown => "Unknown"
    }
  }

  /** The lower-cased carrier names are the keywords the handlers test for. */
  lemma LowerNames()
    ensures Lower(UPS.Name()) == "ups"
    ensures Lower(FedEx.Name()) == "fedex"
    ensures Lower(USPS.Name()) == "usps"
    ensures Lower(Amazon.Name()) == "amazon"
  {
  }

  datatype Status = InTransit | Delivered {
    /** The string the handlers put in the record's `status` field. */
    function Name(): string {
      match this
      case InTransit => "In Transit"
      case Delivered => "Delivered"
    }
  }

  /** One test of an if/else-if chain: "if the text includes `keyword`, the
      carrier is `carrier`". */
  datatype Rule = Rule(keyword: string, carrier: Carrier)

  /** The index of the first rule at or after `from` whose keyword the text contains. */
  function FirstRuleFrom(rules: seq<Rule>, text: string, from: nat): (r: Option<nat>)
    requires from <= |rules|
    ensures r.Some? ==> from <= r.value < |rules| && Contains(text, rules[r.value].keyword)
    ensures r.Some? ==> forall j :: from <= j < r.value ==> !Contains(text, rules[j].keyword)
    ensures r.None? ==> forall j :: from <= j < |rules| ==> !Contains(text, rules[j].keyword)
    decreases |rules| - from
  {
    if from == |rules| then None
    else if Contains(text, rules[from].keyword) then Some(from)
    else FirstRuleFrom(rules, text, from + 1)
  }

  /** The carrier of the first rule that fires, or `otherwise` when none does. */
  function Classify(rules: seq<Rule>, text: string, otherwise: Carrier): Carrier {
    match FirstRuleFrom(rules, text, 0)
    case Some(i) => rules[i].carrier
    case None => otherwise
  }

  /** A rule is shadowed when an earlier rule's keyword occurs inside its own
      keyword: whenever it could fire, the earlier rule fires first. */
  lemma ShadowedRuleNeverFires(rules: seq<Rule>, text: string, i: nat, j: nat)
    requires i < j < |rules|
    requires Contains(rules[j].keyword, rules[i].keyword)
    ensures FirstRuleFrom(rules, text, 0) != Some(j)
  {
    if FirstRuleFrom(rules, text, 0) == Some(j) {
      ContainsTransitive(text, rules[j].keyword, rules[i].keyword);
      assert false;
    }
  }

  /** A rule that no earlier keyword shadows fires on its own keyword, so
      together with ShadowedRuleNeverFires: a rule can fire on some text if
      and only if no earlier keyword occurs inside its keyword. */
  lemma UnshadowedRuleFires(rules: seq<Rule>, j: nat)
    requires j < |rules|
    requires forall i :: 0 <= i < j ==> !Contains(rules[j].keyword, rules[i].keyword)
    ensures FirstRuleFrom(rules, rules[j].keyword, 0) == Some(j)
  {
    ContainsItself(rules[j].keyword);
  }

  /** The four keywords are already lower case, each occurs in itself, and
      none occurs in another one except where a handler's chain would make
      that matter. */
  lemma KeywordFacts()
    ensures Lower("fedex") == "fedex" && Lower("ups") == "ups"
    ensures Lower("usps") == "usps" && Lower("amazon") == "amazon"
    ensures Contains("fedex", "fedex") && Contains("ups", "ups")
    ensures Contains("usps", "usps") && Contains("amazon", "amazon")
    ensures !Contains("fedex", "ups") && !Contains("ups", "fedex")
    ensures !Contains("usps", "fedex") && !Contains("usps", "ups")
    ensures !Contains("amazon", "fedex") && !Contains("amazon", "ups") && !Contains("amazon", "usps")
  {
    var fedex, ups, usps, amazon := "fedex", "ups", "usps", "amazon";
    assert forall k :: 0 <= k < |fedex| ==> IsLower(fedex[k]);
    assert forall k :: 0 <= k < |ups| ==> IsLower(ups[k]);
    assert forall k :: 0 <= k < |usps| ==> IsLower(usps[k]);
    assert forall k :: 0 <= k < |amazon| ==> IsLower(amazon[k]);
    LowerKeepsLowercase(fedex);
    LowerKeepsLowercase(ups);
    LowerKeepsLowercase(usps);
    LowerKeepsLowercase(amazon);
    ContainsItself(fedex);
    ContainsItself(ups);
    ContainsItself(usps);
    ContainsItself(amazon);
    MissingCharNotContained(fedex, ups, 'u');
    MissingCharNotContained(ups, fedex, 'f');
    MissingCharNotContained(usps, fedex, 'f');
    UpsNotInUsps();
    MissingCharNotContained(amazon, fedex, 'f');
    MissingCharNotContained(amazon, ups, 'u');
    MissingCharNotContained(amazon, usps, 'u');
  }

  /** "usps" is u-s-p-s: the keyword "ups" does not occur in it, so a test
      for "ups" placed before a test for "usps" does not shadow it. */
  lemma UpsNotInUsps()
    ensures !Contains("usps", "ups")
  {
    var usps := "usps";
    forall k | 0 <= k <= 1
      ensures !OccursAt(usps, "ups", k)
    {
      if k == 0 {
        assert usps[k..k + 3][1] == 's';
      } else {
        assert usps[k..k + 3][0] == 's';
      }
    }
  }
}
