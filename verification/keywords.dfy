/**
 * Keyword categorisation of receipt text. Both `categorizeExpense` helpers
 * lower-case the text and test a fixed cascade of rules: each rule is a list of
 * keywords joined by `||`, and the first rule with a keyword that occurs in
 * the text decides the category. The app's helper uses English keywords and
 * falls back to "Other"; the Cloud Function's uses Vietnamese keywords and
 * falls back to "Khác".
 */
module Keywords {
  import opened Strings

  /** One `if (text.includes(k1) || text.includes(k2) ...) return category;` step. */
  datatype Rule = Rule(keywords: seq<string>, category: string)

  /** `text.includes(k1) || text.includes(k2) || ...`, evaluated left to right. */
  predicate Mentions(text: string, keywords: seq<string>) {
    |keywords| > 0 && (Contains(text, keywords[0]) || Mentions(text, keywords[1..]))
  }

  /** The cascade of rules, then the fallback. */
  function Classify(rules: seq<Rule>, fallback: string, text: string): string {
    if |rules| == 0 then fallback
    else if Mentions(text, rules[0].keywords) then rules[0].category
    else Classify(rules[1..], fallback, text)
  }

  /** The position of the first rule that the text triggers, or `|rules|` when none does. */
  function FirstRule(rules: seq<Rule>, text: string): (i: nat)
    ensures i <= |rules|
    ensures forall j :: 0 <= j < i ==> !Mentions(text, rules[j].keywords)
    ensures i < |rules| ==> Mentions(text, rules[i].keywords)
  {
    if |rules| == 0 || Mentions(text, rules[0].keywords) then 0
    else 1 + FirstRule(rules[1..], text)
  }

  /** The text mentions a keyword list exactly when one of its keywords occurs in the text. */
  lemma {:induction false} MentionsIff(text: string, keywords: seq<string>)
    ensures Mentions(text, keywords) <==> exists k :: 0 <= k < |keywords| && Contains(text, keywords[k])
  {
    if |keywords| > 0 {
      MentionsIff(text, keywords[1..]);
      if Mentions(text, keywords[1..]) {
        var k :| 0 <= k < |keywords[1..]| && Contains(text, keywords[1..][k]);
        assert Contains(text, keywords[k + 1]);
      }
      if exists k :: 0 <= k < |keywords| && Contains(text, keywords[k]) {
        var k :| 0 <= k < |keywords| && Contains(text, keywords[k]);
        if k > 0 {
          assert keywords[1..][k - 1] == keywords[k];
        }
      }
    }
  }

  /** The category is the one of the first rule the text triggers, else the fallback. */
  lemma {:induction false} ClassifyByFirstRule(rules: seq<Rule>, fallback: string, text: string)
    ensures Classify(rules, fallback, text)
      == if FirstRule(rules, text) < |rules| then rules[FirstRule(rules, text)].category else fallback
  {
    if |rules| > 0 && !Mentions(text, rules[0].keywords) {
      ClassifyByFirstRule(rules[1..], fallback, text);
    }
  }

  /** The result is always one of the rules' categories or the fallback. */
  lemma ClassifyRange(rules: seq<Rule>, fallback: string, text: string)
    ensures var r := Classify(rules, fallback, text);
      r == fallback || exists i :: 0 <= i < |rules| && r == rules[i].category
  {
    ClassifyByFirstRule(rules, fallback, text);
  }

  /** A keyword that occurs in `x` also occurs in any text around `x`. */
  lemma {:induction false} MentionsInContext(p: string, x: string, q: string, keywords: seq<string>)
    requires Mentions(x, keywords)
    ensures Mentions(p + x + q, keywords)
  {
    MentionsIff(x, keywords);
    var k :| 0 <= k < |keywords| && Contains(x, keywords[k]);
    ContainsInContext(p, x, q, keywords[k]);
    MentionsIff(p + x + q, keywords);
  }

  /** Surrounding text can only move the decision to an earlier rule. */
  lemma FirstRuleInContext(rules: seq<Rule>, p: string, x: string, q: string)
    ensures FirstRule(rules, p + x + q) <= FirstRule(rules, x)
  {
    var i := FirstRule(rules, x);
    if i < |rules| {
      MentionsInContext(p, x, q, rules[i].keywords);
    }
  }

  // ---------------------------------------------------------------------------
  // The app's English categoriser
  // ---------------------------------------------------------------------------

  const EnglishRules: seq<Rule> := [
    Rule(["cafe", "restaurant", "food", "meal", "coffee", "drink"], "Food & Dining"),
    Rule(["gas", "bus", "taxi", "travel", "transport", "fuel"], "Transportation"),
    Rule(["supermarket", "shopping", "store", "market", "groceries"], "Shopping"),
    Rule(["electricity", "water", "internet", "utilities", "bill"], "Utilities"),
    Rule(["rent", "housing", "home"], "Housing")
  ]

  /** The categories the manual-entry picker offers; "Income" is not among them. */
  const ExpenseCategories: seq<string> := [
    "Food & Dining", "Transportation", "Shopping", "Utilities", "Housing",
    "Entertainment", "Health", "Education", "Other"
  ]

  /** `categorizeExpense` of the app. */
  function CategorizeExpense(text: string): (r: string)
    ensures r in ExpenseCategories
    ensures r != "Income" && r != "Uncategorized" && r != ""
  {
    var r := Classify(EnglishRules, "Other", ToLower(text));
    ClassifyRange(EnglishRules, "Other", ToLower(text));
    r
  }

  /** Case does not matter. */
  lemma CategorizeExpenseIgnoresCase(text: string)
    ensures CategorizeExpense(ToLower(text)) == CategorizeExpense(text)
  {
    ToLowerIdempotent(text);
  }

  /**
   * A text that triggers rule `i` and none before it gets rule `i`'s category,
   * whatever later rules it also triggers.
   */
  lemma CategorizeExpenseByRule(text: string, i: nat, k: nat)
    requires i < |EnglishRules| && k < |EnglishRules[i].keywords|
    requires Contains(ToLower(text), EnglishRules[i].keywords[k])
    requires forall j :: 0 <= j < i ==> !Mentions(ToLower(text), EnglishRules[j].keywords)
    ensures CategorizeExpense(text) == EnglishRules[i].category
  {
    MentionsIff(ToLower(text), EnglishRules[i].keywords);
    ClassifyByFirstRule(EnglishRules, "Other", ToLower(text));
  }

  /** Without any keyword the category is "Other". */
  lemma CategorizeExpenseFallback(text: string)
    requires forall i, k :: 0 <= i < |EnglishRules| && 0 <= k < |EnglishRules[i].keywords| ==> !Contains(ToLower(text), EnglishRules[i].keywords[k])
    ensures CategorizeExpense(text) == "Other"
  {
    forall i | 0 <= i < |EnglishRules|
      ensures !Mentions(ToLower(text), EnglishRules[i].keywords)
    {
      MentionsIff(ToLower(text), EnglishRules[i].keywords);
    }
    ClassifyByFirstRule(EnglishRules, "Other", ToLower(text));
  }

  /** A food keyword anywhere decides "Food & Dining", whatever else the text says. */
  lemma FoodKeywordWins(text: string, k: nat)
    requires k < |EnglishRules[0].keywords|
    requires Contains(ToLower(text), EnglishRules[0].keywords[k])
    ensures CategorizeExpense(text) == "Food & Dining"
  {
    CategorizeExpenseByRule(text, 0, k);
  }

  // ---------------------------------------------------------------------------
  // The Cloud Function's Vietnamese categoriser
  // ---------------------------------------------------------------------------

  const VietnameseRules: seq<Rule> := [
    Rule(["cafe", "phở", "bánh mì", "nhà hàng", "ăn uống"], "Ăn uống"),
    Rule(["xăng", "xe buýt", "taxi", "đi lại"], "Đi lại"),
    Rule(["siêu thị", "mua sắm", "shop"], "Mua sắm"),
    Rule(["điện", "nước", "internet"], "Tiện ích"),
    Rule(["thuê nhà", "trọ"], "Nhà ở")
  ]

  const VietnameseCategories: seq<string> := ["Ăn uống", "Đi lại", "Mua sắm", "Tiện ích", "Nhà ở", "Khác"]

  /** `categorizeExpense` of the Cloud Function. */
  function CategorizeVietnamese(text: string): (r: string)
    ensures r in VietnameseCategories
  {
    var r := Classify(VietnameseRules, "Khác", ToLower(text));
    ClassifyRange(VietnameseRules, "Khác", ToLower(text));
    r
  }

  /** Case does not matter. */
  lemma CategorizeVietnameseIgnoresCase(text: string)
    ensures CategorizeVietnamese(ToLower(text)) == CategorizeVietnamese(text)
  {
    ToLowerIdempotent(text);
  }

  /** Empty text mentions no keyword list whose keywords are all non-empty. */
  lemma {:induction false} EmptyMentionsNothing(keywords: seq<string>)
    requires forall k :: 0 <= k < |keywords| ==> keywords[k] != ""
    ensures !Mentions("", keywords)
  {
    if |keywords| > 0 {
      assert !StartsWith("", keywords[0]);
      EmptyMentionsNothing(keywords[1..]);
    }
  }

  /** Text without any keyword, such as the empty text, falls back to "Khác". */
  lemma CategorizeVietnameseOfEmpty()
    ensures CategorizeVietnamese("") == "Khác"
  {
    assert ToLower("") == "";
    forall i | 0 <= i < |VietnameseRules|
      ensures !Mentions("", VietnameseRules[i].keywords)
    {
      EmptyMentionsNothing(VietnameseRules[i].keywords);
    }
    ClassifyByFirstRule(VietnameseRules, "Khác", "");
  }

  /** The Vietnamese categoriser, rule by rule. */
  lemma CategorizeVietnameseByRule(text: string, i: nat, k: nat)
    requires i < |VietnameseRules| && k < |VietnameseRules[i].keywords|
    requires Contains(ToLower(text), VietnameseRules[i].keywords[k])
    requires forall j :: 0 <= j < i ==> !Mentions(ToLower(text), VietnameseRules[j].keywords)
    ensures CategorizeVietnamese(text) == VietnameseRules[i].category
  {
    MentionsIff(ToLower(text), VietnameseRules[i].keywords);
    ClassifyByFirstRule(VietnameseRules, "Khác", ToLower(text));
  }
}
