/** detectOperationType of packages/core/src/index.ts: an ordered list of
    substring rules over the lower-cased `category`, first match wins, with a
    fallback on `direction`. */
module Classify {
  import opened JsText
  import opened JsValue
  import opened Raw

  datatype OperationType = Swap | Transfer | Approve | Borrow | Repay | Liquidity | Unknown

  /** `(tx.category as string | undefined)?.toLowerCase() || ''`. */
  function CategoryText(tx: RawTransaction): (r: string)
    requires Conforming(tx)
    ensures forall i :: 0 <= i < |r| ==> !IsUpper(r[i])
    ensures "category" !in tx ==> r == ""
    ensures "category" in tx ==> ToUpperCase(r) == ToUpperCase(tx["category"].s)
  {
    if "category" in tx then
      UpperOfLower(tx["category"].s);
      ToLowerCase(tx["category"].s)
    else ""
  }

  /** detectOperationType, as the chain of tests the source writes. */
  function DetectOperationType(tx: RawTransaction): (r: OperationType)
    requires Conforming(tx)
    ensures "category" !in tx ==> r == (if TruthyAt(tx, "direction") then Transfer else Unknown)
    ensures r == Unknown ==> !TruthyAt(tx, "direction")
  {
    var category := CategoryText(tx);
    if Includes(category, "swap") || Includes(category, "dex") then Swap
    else if Includes(category, "transfer") then Transfer
    else if Includes(category, "approve") || Includes(category, "approval") then Approve
    else if Includes(category, "borrow") then Borrow
    else if Includes(category, "repay") then Repay
    else if Includes(category, "liquidity") || Includes(category, "lp") then Liquidity
    else if TruthyAt(tx, "direction") then Transfer
    else Unknown
  }

  /** One classification rule: if the category contains any of the words,
      the record has the rule's type. */
  datatype Rule = Rule(words: seq<string>, result: OperationType)

  /** The classifier's priority list, in the order the rules are tried. */
  const CategoryRules: seq<Rule> := [
    Rule(["swap", "dex"], Swap),
    Rule(["transfer"], Transfer),
    Rule(["approve", "approval"], Approve),
    Rule(["borrow"], Borrow),
    Rule(["repay"], Repay),
    Rule(["liquidity", "lp"], Liquidity)
  ]

  predicate RuleMatches(rule: Rule, category: string) {
    exists i :: 0 <= i < |rule.words| && Includes(category, rule.words[i])
  }

  /** rules[k] is the first rule that matches the category. */
  predicate IsFirstMatch(rules: seq<Rule>, category: string, k: int) {
    && 0 <= k < |rules|
    && RuleMatches(rules[k], category)
    && forall j :: 0 <= j < k ==> !RuleMatches(rules[j], category)
  }

  /** Classification by an ordered rule list: the type of the first matching
      rule; when none matches, transfer if the record has a direction and
      unknown otherwise. */
  function ClassifyWith(rules: seq<Rule>, category: string, hasDirection: bool): (r: OperationType)
    ensures forall k :: IsFirstMatch(rules, category, k) ==> r == rules[k].result
    ensures (forall k :: 0 <= k < |rules| ==> !RuleMatches(rules[k], category)) ==>
              r == (if hasDirection then Transfer else Unknown)
    decreases |rules|
  {
    if rules == [] then (if hasDirection then Transfer else Unknown)
    else if RuleMatches(rules[0], category) then rules[0].result
    else
      var r := ClassifyWith(rules[1..], category, hasDirection);
      assert forall k :: IsFirstMatch(rules, category, k) ==> IsFirstMatch(rules[1..], category, k - 1) by {
        forall k | IsFirstMatch(rules, category, k)
          ensures IsFirstMatch(rules[1..], category, k - 1)
        {
          assert k != 0;
          forall j | 0 <= j < k - 1
            ensures !RuleMatches(rules[1..][j], category)
          {
            assert rules[1..][j] == rules[j + 1];
          }
        }
      }
      assert (forall k :: 0 <= k < |rules| ==> !RuleMatches(rules[k], category)) ==>
               (forall k :: 0 <= k < |rules[1..]| ==> !RuleMatches(rules[1..][k], category)) by {
        if forall k :: 0 <= k < |rules| ==> !RuleMatches(rules[k], category) {
          forall k | 0 <= k < |rules[1..]|
            ensures !RuleMatches(rules[1..][k], category)
          {
            assert rules[1..][k] == rules[k + 1];
          }
        }
      }
      r
  }

  lemma RuleMatchesPair(a: string, b: string, t: OperationType, category: string)
    ensures RuleMatches(Rule([a, b], t), category) <==> Includes(category, a) || Includes(category, b)
  {
    var rule := Rule([a, b], t);
    if Includes(category, a) {
      assert Includes(category, rule.words[0]);
    }
    if Includes(category, b) {
      assert Includes(category, rule.words[1]);
    }
  }

  lemma RuleMatchesSingle(a: string, t: OperationType, category: string)
    ensures RuleMatches(Rule([a], t), category) <==> Includes(category, a)
  {
    var rule := Rule([a], t);
    if Includes(category, a) {
      assert Includes(category, rule.words[0]);
    }
  }

  /** The chain of tests in detectOperationType is classification by the
      priority list CategoryRules. */
  lemma {:induction false} DetectFollowsRuleTable(tx: RawTransaction)
    requires Conforming(tx)
    ensures DetectOperationType(tx) == ClassifyWith(CategoryRules, CategoryText(tx), TruthyAt(tx, "direction"))
  {
    var c, d := CategoryText(tx), TruthyAt(tx, "direction");
    var rs := CategoryRules;
    RuleMatchesPair("swap", "dex", Swap, c);
    RuleMatchesSingle("transfer", Transfer, c);
    RuleMatchesPair("approve", "approval", Approve, c);
    RuleMatchesSingle("borrow", Borrow, c);
    RuleMatchesSingle("repay", Repay, c);
    RuleMatchesPair("liquidity", "lp", Liquidity, c);
    assert rs[1..] == CategoryRules[1..];
    assert ClassifyWith(rs[6..], c, d) == (if d then Transfer else Unknown);
  }

  /** Rule priority, in both directions: a record is a swap exactly when its
      lower-cased category contains "swap" or "dex", whatever else it holds;
      of each later type exactly when its rule is the first that matches;
      and the direction decides only when no rule matches. */
  lemma DetectOperationTypeCases(tx: RawTransaction)
    requires Conforming(tx)
    ensures var c := CategoryText(tx);
      var s := Includes(c, "swap") || Includes(c, "dex");
      var t := Includes(c, "transfer");
      var a := Includes(c, "approve") || Includes(c, "approval");
      var b := Includes(c, "borrow");
      var p := Includes(c, "repay");
      var l := Includes(c, "liquidity") || Includes(c, "lp");
      var d := TruthyAt(tx, "direction");
      && (DetectOperationType(tx) == Swap <==> s)
      && (DetectOperationType(tx) == Transfer <==> !s && (t || (!a && !b && !p && !l && d)))
      && (DetectOperationType(tx) == Approve <==> !s && !t && a)
      && (DetectOperationType(tx) == Borrow <==> !s && !t && !a && b)
      && (DetectOperationType(tx) == Repay <==> !s && !t && !a && !b && p)
      && (DetectOperationType(tx) == Liquidity <==> !s && !t && !a && !b && !p && l)
      && (DetectOperationType(tx) == Unknown <==> !s && !t && !a && !b && !p && !l && !d)
  {
  }

  /** "swap" or "dex" in any letter case anywhere in the category makes the
      record a swap. */
  lemma SwapInAnyLetterCase(tx: RawTransaction, word: string)
    requires Conforming(tx)
    requires "category" in tx && Includes(tx["category"].s, word)
    requires ToLowerCase(word) == "swap" || ToLowerCase(word) == "dex"
    ensures DetectOperationType(tx) == Swap
  {
    IncludesLower(tx["category"].s, word);
  }

  /** Classification reads nothing but `category` and `direction`: every
      other field is ignored. */
  lemma DetectReadsCategoryAndDirection(tx: RawTransaction, tx': RawTransaction)
    requires Conforming(tx) && Conforming(tx')
    requires AgreeOn(tx, tx', {"category", "direction"})
    ensures DetectOperationType(tx) == DetectOperationType(tx')
  {
    assert "category" in {"category", "direction"};
    assert "direction" in {"category", "direction"};
  }
}
