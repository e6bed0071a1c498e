/**
 * The impact tagger of `analyze_news`: a keyword heuristic over the
 * extracted article text (not over the sentiment model's label). It starts
 * from neutral and applies three rules in order, each one overwriting the
 * tag the previous ones left.
 */
module ImpactTagger {
  import opened Text

  /** The four tags written under "影响". */
  datatype Impact = Neutral | Positive | Negative | PolicyPositive

  /** The tag as the analyzer spells it. */
  function Label(impact: Impact): (r: string)
    ensures r == "中性" || r == "利好" || r == "利空" || r == "政策利好"
    ensures impact == Neutral <==> r == "中性"
    ensures impact == Positive <==> r == "利好"
    ensures impact == Negative <==> r == "利空"
  {
    match impact
    case Neutral => "中性"
    case Positive => "利好"
    case Negative => "利空"
    case PolicyPositive => "政策利好"
  }

  /** Rise, good news or growth is mentioned. */
  predicate HasPositive(text: string)
  {
    Contains(text, "涨") || Contains(text, "利好") || Contains(text, "增长")
  }

  /** Fall, bad news or decline is mentioned. */
  predicate HasNegative(text: string)
  {
    Contains(text, "跌") || Contains(text, "利空") || Contains(text, "下降")
  }

  /** Policy or support is mentioned. */
  predicate HasPolicy(text: string)
  {
    Contains(text, "政策") || Contains(text, "支持")
  }

  /** First rule: a positive keyword sets the tag to positive. */
  function PositiveRule(impact: Impact, text: string): (r: Impact)
  {
    if HasPositive(text) then Positive else impact
  }

  /** Second rule: a negative keyword sets the tag to negative, whatever it was. */
  function NegativeRule(impact: Impact, text: string): (r: Impact)
  {
    if HasNegative(text) then Negative else impact
  }

  /** Third rule: a policy keyword upgrades a positive tag and keeps any other. */
  function PolicyRule(impact: Impact, text: string): (r: Impact)
  {
    if HasPolicy(text) then (if impact == Positive then PolicyPositive else impact) else impact
  }

  /**
   * The tag of `text`: neutral, then the three rules in order, the last
   * write winning. Its contract is the decision table that order amounts to:
   * any negative keyword gives negative, whatever positive or policy
   * keywords are also present; policy-positive needs a positive keyword, no
   * negative one and a policy keyword; a text with neither positive nor
   * negative keywords stays neutral even when it mentions policy.
   */
  function Tag(text: string): (r: Impact)
    ensures r == Negative <==> HasNegative(text)
    ensures r == PolicyPositive <==> HasPositive(text) && !HasNegative(text) && HasPolicy(text)
    ensures r == Positive <==> HasPositive(text) && !HasNegative(text) && !HasPolicy(text)
    ensures r == Neutral <==> !HasPositive(text) && !HasNegative(text)
  {
    PolicyRule(NegativeRule(PositiveRule(Neutral, text), text), text)
  }

  /**
   * The tagging block as written: the label held in a local variable is
   * reassigned by each rule in turn, the policy rule comparing it with
   * "利好". It ends holding the label of `Tag`.
   */
  method TagLabel(content: string) returns (impact: string)
    ensures impact == Label(Tag(content))
  {
    impact := "中性";
    if HasPositive(content) {
      impact := "利好";
    }
    if HasNegative(content) {
      impact := "利空";
    }
    if HasPolicy(content) {
      impact := if impact == "利好" then "政策利好" else impact;
    }
  }

  /** The policy rule never changes a tag other than positive. */
  lemma PolicyRuleOnlyUpgradesPositive(impact: Impact, text: string)
    ensures impact != Positive ==> PolicyRule(impact, text) == impact
    ensures PolicyRule(impact, text) == PolicyPositive ==> impact in {Positive, PolicyPositive}
  {
  }

  /**
   * Only which keywords occur matters, not where or in which order: two
   * texts mentioning the same keyword groups get the same tag.
   */
  lemma TagDependsOnlyOnKeywordGroups(a: string, b: string)
    requires HasPositive(a) == HasPositive(b)
    requires HasNegative(a) == HasNegative(b)
    requires HasPolicy(a) == HasPolicy(b)
    ensures Tag(a) == Tag(b)
  {
  }

  /** A negative passage makes the whole text negative, whatever surrounds it. */
  lemma NegativePassageDominates(before: string, passage: string, after: string)
    requires HasNegative(passage)
    ensures Tag(before + passage + after) == Negative
  {
    var text := before + passage + after;
    if Contains(passage, "跌") {
      ContainedInContext(before, passage, after, "跌");
    } else if Contains(passage, "利空") {
      ContainedInContext(before, passage, after, "利空");
    } else {
      ContainedInContext(before, passage, after, "下降");
    }
  }

  /** "公司利好消息，股价上涨": good news and a rise, nothing negative, no policy. */
  lemma ScenarioGoodNews(text: string)
    requires text == "公司利好消息，股价上涨"
    ensures Tag(text) == Positive
  {
    assert text[2..4] == "利好";
    OccurrenceContained(text, "利好", 2);
    MissingCharNotContained(text, "跌", 0);
    MissingCharNotContained(text, "利空", 1);
    MissingCharNotContained(text, "下降", 0);
    MissingCharNotContained(text, "政策", 0);
    MissingCharNotContained(text, "支持", 0);
  }

  /** "受政策支持，股价上涨明显": a rise under a supportive policy. */
  lemma ScenarioPolicySupport(text: string)
    requires text == "受政策支持，股价上涨明显"
    ensures Tag(text) == PolicyPositive
  {
    assert text[9..10] == "涨";
    OccurrenceContained(text, "涨", 9);
    assert text[1..3] == "政策";
    OccurrenceContained(text, "政策", 1);
    MissingCharNotContained(text, "跌", 0);
    MissingCharNotContained(text, "利空", 0);
    MissingCharNotContained(text, "下降", 0);
  }

  /** "市场下跌，利空消息增多": a fall and bad news. */
  lemma ScenarioBadNews(text: string)
    requires text == "市场下跌，利空消息增多"
    ensures Tag(text) == Negative
  {
    assert text[3..4] == "跌";
    OccurrenceContained(text, "跌", 3);
  }
}
