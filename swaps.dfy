/** extractUsdcToWbtcSwaps of packages/core/src/index.ts: an order-preserving
    filter that keeps the swaps from USDC to WBTC, recognising each token by a
    fixed alias table. */
module Swaps {
  import opened JsText
  import opened JsValue
  import opened Raw
  import opened Extract
  import opened Classify
  import opened Normalize
  import opened JsArray

  /** TOKEN_NORMALIZATION: each canonical symbol with its known lower-case
      aliases. */
  const TokenNormalization: map<string, seq<string>> := map[
    "USDC" := ["usdc", "usd-coin"],
    "WBTC" := ["wbtc", "wrapped-btc", "wrapped-bitcoin"]
  ]

  /** Each canonical symbol's lower-case form is among its aliases, and no
      alias is empty. */
  lemma AliasTableShape(canonical: string)
    requires canonical in TokenNormalization
    ensures ToLowerCase(canonical) in TokenNormalization[canonical]
    ensures "" !in TokenNormalization[canonical]
  {
    if canonical == "USDC" {
      assert ToLowerCase("USDC") == "usdc" by {
        assert LowerChar('U') == 'u' && LowerChar('S') == 's' && LowerChar('D') == 'd' && LowerChar('C') == 'c';
      }
    } else {
      assert canonical == "WBTC";
      assert ToLowerCase("WBTC") == "wbtc" by {
        assert LowerChar('W') == 'w' && LowerChar('B') == 'b' && LowerChar('T') == 't' && LowerChar('C') == 'c';
      }
    }
  }

  /** isTokenMatch: the token, canonicalised, is the canonical symbol itself
      or its lower-cased form is one of the symbol's aliases. Equivalently,
      the token's trimmed, lower-cased form is one of the aliases. */
  function IsTokenMatch(token: Option<string>, canonical: string): (r: bool)
    requires canonical in TokenNormalization
    ensures r <==> token.Some? && ToLowerCase(Trim(token.value)) in TokenNormalization[canonical]
  {
    if !Present(token) then
      assert token.Some? ==> Trim(token.value) == "";
      AliasTableShape(canonical);
      false
    else
      var normalized := NormalizeTokenSymbol(token);
      if !Present(normalized) then
        AliasTableShape(canonical);
        false
      else
        var t := Trim(token.value);
        LowerOfUpper(t);
        AliasTableShape(canonical);
        normalized.value == canonical || ToLowerCase(normalized.value) in TokenNormalization[canonical]
  }

  /** " usdc ", "Usdc" and "USDC" all match USDC. */
  lemma UsdcSpellingsMatch()
    ensures IsTokenMatch(Some(" usdc "), "USDC")
    ensures IsTokenMatch(Some("Usdc"), "USDC")
    ensures IsTokenMatch(Some("USDC"), "USDC")
  {
    PaddedUsdcMatches();
    MixedCaseUsdcMatches();
    CanonicalUsdcMatches();
  }

  lemma PaddedUsdcMatches()
    ensures IsTokenMatch(Some(" usdc "), "USDC")
  {
    PaddedUsdcTrim();
    UsdcAlias();
  }

  lemma MixedCaseUsdcMatches()
    ensures IsTokenMatch(Some("Usdc"), "USDC")
  {
    TrimOfTrimmed("Usdc");
    UsdcAlias();
  }

  lemma CanonicalUsdcMatches()
    ensures IsTokenMatch(Some("USDC"), "USDC")
  {
    TrimOfTrimmed("USDC");
    AliasTableShape("USDC");
  }

  lemma UsdcAlias()
    ensures ToLowerCase("usdc") == "usdc" && ToLowerCase("Usdc") == "usdc"
    ensures "usdc" in TokenNormalization["USDC"]
  {
    assert LowerChar('U') == 'u' && LowerChar('u') == 'u' && LowerChar('s') == 's' && LowerChar('d') == 'd' && LowerChar('c') == 'c';
    assert TokenNormalization["USDC"][0] == "usdc";
  }

  /** The record the filter keeps: a swap whose tokenIn, trimmed and
      lower-cased, is an alias of USDC and whose tokenOut is one of WBTC. */
  predicate IsUsdcToWbtcSwap(tx: NormalizedTransaction): (r: bool)
    ensures r <==> && tx.opType == Swap
                   && tx.tokenIn.Some? && ToLowerCase(Trim(tx.tokenIn.value)) in TokenNormalization["USDC"]
                   && tx.tokenOut.Some? && ToLowerCase(Trim(tx.tokenOut.value)) in TokenNormalization["WBTC"]
  {
    tx.opType == Swap && IsTokenMatch(tx.tokenIn, "USDC") && IsTokenMatch(tx.tokenOut, "WBTC")
  }

  /** extractUsdcToWbtcSwaps: `txs.filter(IsUsdcToWbtcSwap)`. */
  function ExtractUsdcToWbtcSwaps(txs: seq<NormalizedTransaction>): (r: seq<NormalizedTransaction>)
    ensures |r| <= |txs|
  {
    Filter(txs, IsUsdcToWbtcSwap)
  }

  /** The filter returns exactly the USDC-to-WBTC swaps of its input, in
      their input order, each as often as it occurs there. */
  lemma ExtractUsdcToWbtcSwapsExact(txs: seq<NormalizedTransaction>)
    ensures var r := ExtractUsdcToWbtcSwaps(txs);
      && (forall x :: x in r ==> IsUsdcToWbtcSwap(x))
      && (forall x :: x in txs && IsUsdcToWbtcSwap(x) ==> x in r)
      && (forall x :: multiset(r)[x] == (if IsUsdcToWbtcSwap(x) then multiset(txs)[x] else 0))
      && IsSubsequence(r, txs)
  {
    FilterExact(txs, IsUsdcToWbtcSwap);
  }

  /** Filtering twice equals filtering once. */
  lemma ExtractIdempotent(txs: seq<NormalizedTransaction>)
    ensures ExtractUsdcToWbtcSwaps(ExtractUsdcToWbtcSwaps(txs)) == ExtractUsdcToWbtcSwaps(txs)
  {
    FilterIdempotent(txs, IsUsdcToWbtcSwap);
  }

  /** Filtering a + b is filtering a, then b, and concatenating. */
  lemma ExtractConcat(a: seq<NormalizedTransaction>, b: seq<NormalizedTransaction>)
    ensures ExtractUsdcToWbtcSwaps(a + b) == ExtractUsdcToWbtcSwaps(a) + ExtractUsdcToWbtcSwaps(b)
  {
    FilterConcat(a, b, IsUsdcToWbtcSwap);
  }

  /** A raw record whose category names a swap and whose explicit `token_in`
      and `token_out` are USDC and WBTC under one of their aliases, in any
      letter case and with any surrounding whitespace, normalises to a record
      the filter keeps. */
  lemma ExplicitUsdcToWbtcSwapIsKept(tx: RawTransaction, toIso: string -> string, now: string)
    requires Conforming(tx)
    requires Includes(CategoryText(tx), "swap") || Includes(CategoryText(tx), "dex")
    requires "token_in" in tx && ToLowerCase(Trim(tx["token_in"].s)) in TokenNormalization["USDC"]
    requires "token_out" in tx && ToLowerCase(Trim(tx["token_out"].s)) in TokenNormalization["WBTC"]
    ensures IsUsdcToWbtcSwap(NormalizeTransaction(tx, toIso, now))
  {
    AliasMatches(tx["token_in"].s, "USDC");
    AliasMatches(tx["token_out"].s, "WBTC");
    TokenInPrecedence(tx, toIso, now);
    TokenOutPrecedence(tx, toIso, now);
  }

  /** A string whose trimmed, lower-cased form is an alias of a canonical
      symbol is not blank, and its canonical form matches that symbol. */
  lemma AliasMatches(s: string, canonical: string)
    requires canonical in TokenNormalization
    requires ToLowerCase(Trim(s)) in TokenNormalization[canonical]
    ensures Trim(s) != ""
    ensures IsTokenMatch(Some(ToUpperCase(Trim(s))), canonical)
  {
    AliasTableShape(canonical);
    CanonicalKeepsAlias(s);
  }

  /** Canonicalising first does not change what Trim and lower-casing give. */
  lemma CanonicalKeepsAlias(s: string)
    ensures ToLowerCase(Trim(ToUpperCase(Trim(s)))) == ToLowerCase(Trim(s))
  {
    TrimUpperCommute(Trim(s));
    TrimIdempotent(s);
    LowerOfUpper(Trim(s));
  }

  /** Over a batch of raw records: a normalised record is among the
      extracted swaps exactly when it is the normalisation of some input
      record and is a USDC-to-WBTC swap. */
  lemma SwapsOfBatch(raws: seq<RawTransaction>, toIso: string -> string, now: nat -> string, x: NormalizedTransaction)
    requires forall i :: 0 <= i < |raws| ==> Conforming(raws[i])
    ensures x in ExtractUsdcToWbtcSwaps(NormalizeTransactions(raws, toIso, now)) <==>
      IsUsdcToWbtcSwap(x) && exists i :: 0 <= i < |raws| && x == NormalizeTransaction(raws[i], toIso, now(i))
  {
    var n := NormalizeTransactions(raws, toIso, now);
    ExtractedAreMembers(n, x);
    if x in n {
      var i :| 0 <= i < |n| && n[i] == x;
      assert x == NormalizeTransaction(raws[i], toIso, now(i));
    }
    if exists i :: 0 <= i < |raws| && x == NormalizeTransaction(raws[i], toIso, now(i)) {
      var i :| 0 <= i < |raws| && x == NormalizeTransaction(raws[i], toIso, now(i));
      assert n[i] == x;
    }
  }

  /** A record is extracted exactly when it is a kept swap of the input. */
  lemma ExtractedAreMembers(n: seq<NormalizedTransaction>, x: NormalizedTransaction)
    ensures x in ExtractUsdcToWbtcSwaps(n) <==> IsUsdcToWbtcSwap(x) && x in n
  {
    ExtractUsdcToWbtcSwapsExact(n);
  }
}
