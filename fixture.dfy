/** A four-record history in the shape of the provider fixture that
    packages/core/__tests__/normalize.test.ts normalises, with the facts that
    test asserts proved about the model: a USDC-to-WBTC swap, an inbound
    transfer, an approval and a second swap of another pair. The fixture file
    itself is not part of this model; these records are built to carry the
    fields the assertions read. Each fact is first proved for any record with
    the relevant fields, then instantiated with the record. */
module Fixture {
  import opened JsText
  import opened JsValue
  import opened Raw
  import opened Extract
  import opened Classify
  import opened Normalize
  import opened Swaps
  import opened JsArray

  const SwapTimestamp := "2024-05-14T12:00:00.000Z"

  const UsdcToWbtc: RawTransaction := map[
    "hash" := Str("0xswap1"),
    "block_timestamp" := Str(SwapTimestamp),
    "category" := Str("token swap"),
    "token_in" := Str("usdc"),
    "token_out" := Str("wbtc"),
    "amount_in" := Num(JsNumber("1500")),
    "protocol_name" := Str("Uniswap V3")
  ]

  const EthReceived: RawTransaction := map[
    "hash" := Str("0xtransfer1"),
    "direction" := Str("receive"),
    "asset" := Str("eth"),
    "amount" := Num(JsNumber("0.5"))
  ]

  const UsdcApproval: RawTransaction := map[
    "hash" := Str("0xapprove1"),
    "category" := Str("approve")
  ]

  const WethToUsdc: RawTransaction := map[
    "hash" := Str("0xswap2"),
    "category" := Str("token swap"),
    "token_in" := Str("weth"),
    "token_out" := Str("usdc")
  ]

  const History: seq<RawTransaction> := [UsdcToWbtc, EthReceived, UsdcApproval, WethToUsdc]

  lemma HistoryShape()
    ensures |History| == 4
    ensures History[0] == UsdcToWbtc && History[1] == EthReceived
    ensures History[2] == UsdcApproval && History[3] == WethToUsdc
  {
  }

  lemma HistoryConforming()
    ensures forall i :: 0 <= i < |History| ==> Conforming(History[i])
  {
    HistoryShape();
    SwapFields();
    TransferFields();
    ApprovalFields();
    SecondSwapFields();
  }

  // The fields of each record.

  lemma SwapFields()
    ensures Conforming(UsdcToWbtc)
    ensures CategoryText(UsdcToWbtc) == ToLowerCase("token swap")
    ensures StringAt(UsdcToWbtc, "token_in") == Some("usdc")
    ensures StringAt(UsdcToWbtc, "token_out") == Some("wbtc")
    ensures "amount_in" in UsdcToWbtc && UsdcToWbtc["amount_in"] == Num(JsNumber("1500"))
  {
  }

  lemma SwapIdentityFields()
    ensures Conforming(UsdcToWbtc)
    ensures ExtractHash(UsdcToWbtc) == "0xswap1"
    ensures TimestampCandidate(UsdcToWbtc) == Some(SwapTimestamp)
    ensures "protocol_name" in UsdcToWbtc && UsdcToWbtc["protocol_name"] == Str("Uniswap V3")
  {
    assert HasNonEmptyString(UsdcToWbtc, "hash") && UsdcToWbtc["hash"] == Str("0xswap1");
    assert HasNonEmptyString(UsdcToWbtc, "block_timestamp") && UsdcToWbtc["block_timestamp"] == Str(SwapTimestamp);
  }

  lemma TransferFields()
    ensures Conforming(EthReceived)
    ensures "category" !in EthReceived
    ensures "direction" in EthReceived && EthReceived["direction"] == Str("receive")
    ensures StringAt(EthReceived, "asset") == Some("eth")
    ensures "amount" in EthReceived && EthReceived["amount"] == Num(JsNumber("0.5"))
    ensures forall k :: k in {"token_in", "token_symbol", "token_out", "amount_in", "amount_out"} ==> k !in EthReceived
  {
  }

  lemma ApprovalFields()
    ensures Conforming(UsdcApproval)
    ensures CategoryText(UsdcApproval) == ToLowerCase("approve")
  {
  }

  lemma SecondSwapFields()
    ensures Conforming(WethToUsdc)
    ensures CategoryText(WethToUsdc) == ToLowerCase("token swap")
    ensures StringAt(WethToUsdc, "token_in") == Some("weth")
  {
  }

  // Literal text facts.

  lemma NoUpperLetters(s: string)
    requires forall i :: 0 <= i < |s| ==> !IsUpper(s[i])
    ensures ToLowerCase(s) == s
  {
    var r := ToLowerCase(s);
    assert forall i :: 0 <= i < |s| ==> r[i] == s[i];
  }

  lemma PlainSymbol(s: string, canonical: string)
    requires s != [] && !IsSpace(s[0]) && !IsSpace(s[|s| - 1])
    requires ToUpperCase(s) == canonical
    ensures NormalizeTokenSymbol(Some(s)) == Some(canonical)
  {
    TrimOfTrimmed(s);
  }

  lemma UsdcSymbol()
    ensures NormalizeTokenSymbol(Some("usdc")) == Some("USDC")
  {
    UsdcUpper();
    PlainSymbol("usdc", "USDC");
  }

  lemma WbtcSymbol()
    ensures NormalizeTokenSymbol(Some("wbtc")) == Some("WBTC")
  {
    assert ToUpperCase("wbtc") == "WBTC" by {
      assert UpperChar('w') == 'W' && UpperChar('b') == 'B' && UpperChar('t') == 'T' && UpperChar('c') == 'C';
    }
    PlainSymbol("wbtc", "WBTC");
  }

  lemma EthSymbol()
    ensures NormalizeTokenSymbol(Some("eth")) == Some("ETH")
  {
    assert ToUpperCase("eth") == "ETH" by {
      assert UpperChar('e') == 'E' && UpperChar('t') == 'T' && UpperChar('h') == 'H';
    }
    PlainSymbol("eth", "ETH");
  }

  lemma CanonicalWbtcMatches()
    ensures IsTokenMatch(Some("WBTC"), "WBTC")
  {
    TrimOfTrimmed("WBTC");
    AliasTableShape("WBTC");
  }

  lemma WethIsNotUsdc()
    ensures !IsTokenMatch(Some("WETH"), "USDC")
  {
    assert ToLowerCase("WETH")[0] == 'w' by { assert LowerChar('W') == 'w'; }
    TrimOfTrimmed("WETH");
    assert TokenNormalization["USDC"] == ["usdc", "usd-coin"];
    assert "usdc"[0] == 'u';
  }

  // Classification.

  /** A "token swap" category makes a record a swap. */
  lemma TokenSwapCategory(tx: RawTransaction)
    requires Conforming(tx)
    requires CategoryText(tx) == ToLowerCase("token swap")
    ensures DetectOperationType(tx) == Swap
  {
    var c := "token swap";
    assert forall i :: 0 <= i < |c| ==> !IsUpper(c[i]);
    NoUpperLetters(c);
    assert OccursAt("swap", c, 6);
    OccursIncludes(c, "swap", 6);
    DetectOperationTypeCases(tx);
  }

  /** An "approve" category makes a record an approval: no earlier rule's
      words occur in it. */
  lemma ApproveCategory(tx: RawTransaction)
    requires Conforming(tx)
    requires CategoryText(tx) == ToLowerCase("approve")
    ensures DetectOperationType(tx) == Approve
  {
    var c := "approve";
    assert forall i :: 0 <= i < |c| ==> !IsUpper(c[i]);
    NoUpperLetters(c);
    assert forall i :: 0 <= i < |c| ==> c[i] != 's' && c[i] != 'd' && c[i] != 't';
    FirstLetterAbsent(c, "swap");
    FirstLetterAbsent(c, "dex");
    FirstLetterAbsent(c, "transfer");
    OccursIncludes(c, "approve", 0);
    DetectOperationTypeCases(tx);
  }

  /** The records' categories, and the transfer's missing one, classify as
      swap, transfer, approve and swap. */
  lemma HistoryOperationTypes()
    ensures |History| == 4
    ensures Conforming(History[0]) && DetectOperationType(History[0]) == Swap
    ensures Conforming(History[1]) && DetectOperationType(History[1]) == Transfer
    ensures Conforming(History[2]) && DetectOperationType(History[2]) == Approve
    ensures Conforming(History[3]) && DetectOperationType(History[3]) == Swap
  {
    HistoryShape();
    RecordTypes();
  }

  lemma RecordTypes()
    ensures Conforming(UsdcToWbtc) && DetectOperationType(UsdcToWbtc) == Swap
    ensures Conforming(EthReceived) && DetectOperationType(EthReceived) == Transfer
    ensures Conforming(UsdcApproval) && DetectOperationType(UsdcApproval) == Approve
    ensures Conforming(WethToUsdc) && DetectOperationType(WethToUsdc) == Swap
  {
    SwapFields();
    TokenSwapCategory(UsdcToWbtc);
    SecondSwapFields();
    TokenSwapCategory(WethToUsdc);
    TransferFields();
    ApprovalFields();
    ApproveCategory(UsdcApproval);
  }

  // The first record.

  /** A record with explicit token_in "usdc", token_out "wbtc" and amount_in
      1500 carries USDC in, WBTC out and "1500" in. */
  lemma UsdcWbtcTokens(tx: RawTransaction, toIso: string -> string, now: string)
    requires Conforming(tx)
    requires StringAt(tx, "token_in") == Some("usdc") && StringAt(tx, "token_out") == Some("wbtc")
    requires "amount_in" in tx && tx["amount_in"] == Num(JsNumber("1500"))
    ensures var r := NormalizeTransaction(tx, toIso, now);
      && r.tokenIn == Some("USDC")
      && r.tokenOut == Some("WBTC")
      && r.amountIn == Some("1500")
  {
    UsdcSymbol();
    WbtcSymbol();
    TokenInPrecedence(tx, toIso, now);
    TokenOutPrecedence(tx, toIso, now);
    AmountPrecedence(tx, toIso, now);
  }

  /** The swap's hash, timestamp and protocol. The date parser is taken to
      give back unchanged an ISO timestamp it is handed. */
  lemma SwapIdentity(toIso: string -> string, now: string)
    requires toIso(SwapTimestamp) == SwapTimestamp
    ensures Conforming(UsdcToWbtc)
    ensures var r := NormalizeTransaction(UsdcToWbtc, toIso, now);
      && r.timestampISO == SwapTimestamp
      && r.txHash == "0xswap1"
      && r.protocol == Some("Uniswap V3")
  {
    SwapIdentityFields();
    ProtocolIsNonEmptyName(UsdcToWbtc, toIso, now);
  }

  /** The swap normalises to its hash and block timestamp, canonical USDC in
      and WBTC out, and its protocol name. */
  lemma FirstRecordNormalized(toIso: string -> string, now: nat -> string)
    requires toIso(SwapTimestamp) == SwapTimestamp
    ensures forall i :: 0 <= i < |History| ==> Conforming(History[i])
    ensures var first := NormalizeTransactions(History, toIso, now)[0];
      && first.timestampISO == SwapTimestamp
      && first.txHash == "0xswap1"
      && first.tokenIn == Some("USDC")
      && first.tokenOut == Some("WBTC")
      && first.protocol == Some("Uniswap V3")
  {
    HistoryConforming();
    HistoryShape();
    SwapIdentity(toIso, now(0));
    SwapFields();
    UsdcWbtcTokens(UsdcToWbtc, toIso, now(0));
  }

  // The transfer.

  /** A record with no category, no explicit token or amount fields, a
      "receive" direction, asset "eth" and amount 0.5 is a transfer of ETH
      0.5 on the out side. */
  lemma EthReceipt(tx: RawTransaction, toIso: string -> string, now: string)
    requires Conforming(tx)
    requires "category" !in tx
    requires "direction" in tx && tx["direction"] == Str("receive")
    requires StringAt(tx, "asset") == Some("eth")
    requires "amount" in tx && tx["amount"] == Num(JsNumber("0.5"))
    requires forall k :: k in {"token_in", "token_symbol", "token_out", "amount_in", "amount_out"} ==> k !in tx
    ensures var r := NormalizeTransaction(tx, toIso, now);
      && r.opType == Transfer
      && r.tokenOut == Some("ETH")
      && r.amountOut == Some("0.5")
  {
    var d := "receive";
    assert forall i :: 0 <= i < |d| ==> !IsUpper(d[i]);
    NoUpperLetters(d);
    assert DirectionText(tx) == ToLowerCase(d);
    assert IsInbound(tx);
    EthSymbol();
    assert GuessedAsset(tx) == Some("ETH");
    InboundGuessFillsOutSide(tx, toIso, now);
  }

  /** The transfer has no category; its "receive" direction makes it a
      transfer and puts its asset and amount on the out side. */
  lemma TransferNormalized(toIso: string -> string, now: nat -> string)
    ensures forall i :: 0 <= i < |History| ==> Conforming(History[i])
    ensures var transfer := NormalizeTransactions(History, toIso, now)[1];
      && transfer.opType == Transfer
      && transfer.tokenOut == Some("ETH")
      && transfer.amountOut == Some("0.5")
  {
    HistoryConforming();
    HistoryShape();
    TransferFields();
    EthReceipt(EthReceived, toIso, now(1));
  }

  // The filter.

  lemma FirstIsKept(toIso: string -> string, now: string)
    ensures Conforming(UsdcToWbtc)
    ensures var first := NormalizeTransaction(UsdcToWbtc, toIso, now);
      && IsUsdcToWbtcSwap(first)
      && first.txHash == "0xswap1"
      && first.amountIn == Some("1500")
  {
    SwapFields();
    SwapIdentityFields();
    TokenSwapCategory(UsdcToWbtc);
    UsdcWbtcTokens(UsdcToWbtc, toIso, now);
    CanonicalUsdcMatches();
    CanonicalWbtcMatches();
  }

  lemma TransferIsDropped(toIso: string -> string, now: string)
    ensures Conforming(EthReceived)
    ensures !IsUsdcToWbtcSwap(NormalizeTransaction(EthReceived, toIso, now))
  {
    TransferFields();
    EthReceipt(EthReceived, toIso, now);
  }

  lemma ApprovalIsDropped(toIso: string -> string, now: string)
    ensures Conforming(UsdcApproval)
    ensures !IsUsdcToWbtcSwap(NormalizeTransaction(UsdcApproval, toIso, now))
  {
    ApprovalFields();
    ApproveCategory(UsdcApproval);
  }

  /** A record whose explicit token_in is "weth" is never extracted: WETH is
      no alias of USDC. */
  lemma WethInIsDropped(tx: RawTransaction, toIso: string -> string, now: string)
    requires Conforming(tx)
    requires StringAt(tx, "token_in") == Some("weth")
    ensures !IsUsdcToWbtcSwap(NormalizeTransaction(tx, toIso, now))
  {
    assert ToUpperCase("weth") == "WETH" by {
      assert UpperChar('w') == 'W' && UpperChar('e') == 'E' && UpperChar('t') == 'T' && UpperChar('h') == 'H';
    }
    PlainSymbol("weth", "WETH");
    TokenInPrecedence(tx, toIso, now);
    WethIsNotUsdc();
  }

  lemma SecondSwapIsDropped(toIso: string -> string, now: string)
    ensures Conforming(WethToUsdc)
    ensures !IsUsdcToWbtcSwap(NormalizeTransaction(WethToUsdc, toIso, now))
  {
    SecondSwapFields();
    WethInIsDropped(WethToUsdc, toIso, now);
  }

  lemma OnlyFirstKept(n: seq<NormalizedTransaction>)
    requires |n| == 4 && IsUsdcToWbtcSwap(n[0])
    requires !IsUsdcToWbtcSwap(n[1]) && !IsUsdcToWbtcSwap(n[2]) && !IsUsdcToWbtcSwap(n[3])
    ensures ExtractUsdcToWbtcSwaps(n) == [n[0]]
  {
    var keep := IsUsdcToWbtcSwap;
    assert n[3..][0] == n[3] && n[3..][1..] == [];
    assert Filter(n[3..], keep) == [];
    assert n[2..][0] == n[2] && n[2..][1..] == n[3..];
    assert Filter(n[2..], keep) == [];
    assert n[1..][0] == n[1] && n[1..][1..] == n[2..];
    assert Filter(n[1..], keep) == [];
  }

  /** Of the four records only the USDC-to-WBTC swap is extracted, with its
      hash and its amount in. */
  lemma HistorySwaps(toIso: string -> string, now: nat -> string)
    ensures forall i :: 0 <= i < |History| ==> Conforming(History[i])
    ensures var swaps := ExtractUsdcToWbtcSwaps(NormalizeTransactions(History, toIso, now));
      && |swaps| == 1
      && swaps[0].txHash == "0xswap1"
      && swaps[0].amountIn == Some("1500")
  {
    HistoryConforming();
    var n := NormalizeTransactions(History, toIso, now);
    HistoryShape();
    assert n[0] == NormalizeTransaction(UsdcToWbtc, toIso, now(0));
    assert n[1] == NormalizeTransaction(EthReceived, toIso, now(1));
    assert n[2] == NormalizeTransaction(UsdcApproval, toIso, now(2));
    assert n[3] == NormalizeTransaction(WethToUsdc, toIso, now(3));
    FirstIsKept(toIso, now(0));
    TransferIsDropped(toIso, now(1));
    ApprovalIsDropped(toIso, now(2));
    SecondSwapIsDropped(toIso, now(3));
    OnlyFirstKept(n);
  }
}
