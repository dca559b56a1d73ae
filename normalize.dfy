/** normalizeTransactions of packages/core/src/index.ts: every raw record,
    in order, becomes one canonical record, explicit fields taking precedence
    over the direction guess. */
module Normalize {
  import opened JsText
  import opened JsValue
  import opened Raw
  import opened Extract
  import opened Classify
  import opened JsArray

  /** The canonical record (NormalizedTransaction); opType is the source's
      `type`. */
  datatype NormalizedTransaction = NormalizedTransaction(
    timestampISO: string,
    opType: OperationType,
    tokenIn: Option<string>,
    amountIn: Option<string>,
    tokenOut: Option<string>,
    amountOut: Option<string>,
    valueUSD: Option<JsNumber>,
    protocol: Option<string>,
    txHash: string)

  /** The result of `normalizeTokenSymbol(tx[key] as string)`. */
  function ExplicitSymbol(tx: RawTransaction, key: string): (r: Option<string>)
  {
    NormalizeTokenSymbol(StringAt(tx, key))
  }

  /** A field that canonicalises to a non-empty symbol: a string with
      something other than whitespace in it. */
  predicate HasSymbol(tx: RawTransaction, key: string) {
    Present(ExplicitSymbol(tx, key))
  }

  /** The callback normalizeTransactions maps over the records. now is the
      ISO text of the current instant when this record is normalised. */
  function NormalizeTransaction(tx: RawTransaction, toIso: string -> string, now: string): (r: NormalizedTransaction)
    requires Conforming(tx)
    ensures r.opType == DetectOperationType(tx)
    ensures r.txHash == ExtractHash(tx)
    ensures r.timestampISO == ExtractTimestamp(tx, toIso, now)
    ensures r.valueUSD == ResolveValueUSD(tx)
  {
    var opType := DetectOperationType(tx);
    var guessed := GuessTokensFromDirection(tx);
    var tokenIn := Or(Or(ExplicitSymbol(tx, "token_in"), ExplicitSymbol(tx, "token_symbol")), guessed.tokenIn);
    var tokenOut := Or(ExplicitSymbol(tx, "token_out"), guessed.tokenOut);
    var amountIn := if "amount_in" in tx then Some(Stringify(tx["amount_in"])) else guessed.amountIn;
    var amountOut := if "amount_out" in tx then Some(Stringify(tx["amount_out"])) else guessed.amountOut;
    NormalizedTransaction(
      ExtractTimestamp(tx, toIso, now),
      opType,
      tokenIn,
      amountIn,
      tokenOut,
      amountOut,
      ResolveValueUSD(tx),
      Or(StringAt(tx, "protocol_name"), None),
      ExtractHash(tx))
  }

  /** normalizeTransactions: a 1:1, order-preserving map. now(i) is the ISO
      text of the current instant when record i is normalised. */
  function NormalizeTransactions(raws: seq<RawTransaction>, toIso: string -> string, now: nat -> string): (r: seq<NormalizedTransaction>)
    requires forall i :: 0 <= i < |raws| ==> Conforming(raws[i])
    ensures |r| == |raws|
    ensures forall i :: 0 <= i < |raws| ==> r[i] == NormalizeTransaction(raws[i], toIso, now(i))
  {
    seq(|raws|, i requires 0 <= i < |raws| => NormalizeTransaction(raws[i], toIso, now(i)))
  }

  /** Explicit fields win over the guess on the in side: canonical
      `token_in`, else canonical `token_symbol`, else the guessed token. */
  lemma TokenInPrecedence(tx: RawTransaction, toIso: string -> string, now: string)
    requires Conforming(tx)
    ensures var r := NormalizeTransaction(tx, toIso, now);
      && (HasSymbol(tx, "token_in") ==> r.tokenIn == Some(ToUpperCase(Trim(tx["token_in"].s))))
      && (!HasSymbol(tx, "token_in") && HasSymbol(tx, "token_symbol") ==>
            r.tokenIn == Some(ToUpperCase(Trim(tx["token_symbol"].s))))
      && (!HasSymbol(tx, "token_in") && !HasSymbol(tx, "token_symbol") ==>
            r.tokenIn == GuessTokensFromDirection(tx).tokenIn)
  {
  }

  /** Explicit fields win over the guess on the out side: canonical
      `token_out`, else the guessed token. */
  lemma TokenOutPrecedence(tx: RawTransaction, toIso: string -> string, now: string)
    requires Conforming(tx)
    ensures var r := NormalizeTransaction(tx, toIso, now);
      && (HasSymbol(tx, "token_out") ==> r.tokenOut == Some(ToUpperCase(Trim(tx["token_out"].s))))
      && (!HasSymbol(tx, "token_out") ==> r.tokenOut == GuessTokensFromDirection(tx).tokenOut)
  {
  }

  /** Amounts: `String(amount_in)` / `String(amount_out)` whenever the field
      is defined, whatever its value; the guessed amount otherwise. */
  lemma AmountPrecedence(tx: RawTransaction, toIso: string -> string, now: string)
    requires Conforming(tx)
    ensures var r := NormalizeTransaction(tx, toIso, now);
      && r.amountIn == (if "amount_in" in tx then Some(Stringify(tx["amount_in"])) else GuessTokensFromDirection(tx).amountIn)
      && r.amountOut == (if "amount_out" in tx then Some(Stringify(tx["amount_out"])) else GuessTokensFromDirection(tx).amountOut)
  {
  }

  /** The protocol is `protocol_name`, an empty name becoming undefined. */
  lemma ProtocolIsNonEmptyName(tx: RawTransaction, toIso: string -> string, now: string)
    requires Conforming(tx)
    ensures var r := NormalizeTransaction(tx, toIso, now);
      && (r.protocol.Some? <==> "protocol_name" in tx && tx["protocol_name"].s != "")
      && (r.protocol.Some? ==> tx["protocol_name"] == Str(r.protocol.value))
  {
  }

  /** A record with no explicit token or amount fields and a direction of
      "send" (or anything but "receive"/"in") carries its asset and amount on
      the in side only. */
  lemma OutboundGuessFillsInSide(tx: RawTransaction, toIso: string -> string, now: string)
    requires Conforming(tx)
    requires forall k :: k in {"token_in", "token_symbol", "token_out", "amount_in", "amount_out"} ==> k !in tx
    requires !IsInbound(tx)
    ensures var r := NormalizeTransaction(tx, toIso, now);
      && r.tokenIn == GuessedAsset(tx) && r.amountIn == GuessedAmount(tx)
      && r.tokenOut == None && r.amountOut == None
  {
    assert "token_in" !in tx && "token_symbol" !in tx && "token_out" !in tx;
    assert "amount_in" !in tx && "amount_out" !in tx;
  }

  /** With the same preconditions and a direction of "receive" or "in", the
      asset and amount go to the out side only. */
  lemma InboundGuessFillsOutSide(tx: RawTransaction, toIso: string -> string, now: string)
    requires Conforming(tx)
    requires forall k :: k in {"token_in", "token_symbol", "token_out", "amount_in", "amount_out"} ==> k !in tx
    requires IsInbound(tx)
    ensures var r := NormalizeTransaction(tx, toIso, now);
      && r.tokenIn == None && r.amountIn == None
      && r.tokenOut == GuessedAsset(tx) && r.amountOut == GuessedAmount(tx)
  {
    assert "token_in" !in tx && "token_symbol" !in tx && "token_out" !in tx;
    assert "amount_in" !in tx && "amount_out" !in tx;
  }

  /** An inbound record whose only symbol is `token_symbol` gets that symbol
      on both sides: the explicit rule for tokenIn also reads
      `token_symbol`, while the guess puts it on the out side. So the
      normaliser does not keep the direction guess to one side. */
  lemma InboundTokenSymbolFillsBothSides(tx: RawTransaction, toIso: string -> string, now: string)
    requires Conforming(tx)
    requires "token_in" !in tx && "token_out" !in tx && "asset" !in tx
    requires HasSymbol(tx, "token_symbol") && IsInbound(tx)
    ensures var r := NormalizeTransaction(tx, toIso, now);
      && r.tokenIn == ExplicitSymbol(tx, "token_symbol")
      && r.tokenOut == ExplicitSymbol(tx, "token_symbol")
  {
  }

  /** normalizeTransactions distributes over concatenation: the output for
      a + b is the output for a followed by the records of b, each normalised
      with the clock reading of its position in a + b. So the map keeps order
      and never drops, merges or reorders records. */
  lemma NormalizeConcat(a: seq<RawTransaction>, b: seq<RawTransaction>, toIso: string -> string, now: nat -> string)
    requires forall i :: 0 <= i < |a| ==> Conforming(a[i])
    requires forall i :: 0 <= i < |b| ==> Conforming(b[i])
    ensures forall i :: 0 <= i < |a + b| ==> Conforming((a + b)[i])
    ensures |NormalizeTransactions(a + b, toIso, now)| == |a| + |b|
    ensures NormalizeTransactions(a + b, toIso, now)[..|a|] == NormalizeTransactions(a, toIso, now)
    ensures forall j :: 0 <= j < |b| ==>
      NormalizeTransactions(a + b, toIso, now)[|a| + j] == NormalizeTransaction(b[j], toIso, now(|a| + j))
  {
    ConcatConforming(a, b);
    NormalizeAtLeft(a, b, toIso, now);
    NormalizeAtRight(a, b, toIso, now);
  }

  lemma ConcatConforming(a: seq<RawTransaction>, b: seq<RawTransaction>)
    requires forall i :: 0 <= i < |a| ==> Conforming(a[i])
    requires forall i :: 0 <= i < |b| ==> Conforming(b[i])
    ensures forall i :: 0 <= i < |a + b| ==> Conforming((a + b)[i])
  {
    forall i | 0 <= i < |a + b| ensures Conforming((a + b)[i]) {
      ConcatAt(a, b, i);
    }
  }

  lemma NormalizeAtLeft(a: seq<RawTransaction>, b: seq<RawTransaction>, toIso: string -> string, now: nat -> string)
    requires forall i :: 0 <= i < |a| ==> Conforming(a[i])
    requires forall i :: 0 <= i < |a + b| ==> Conforming((a + b)[i])
    ensures NormalizeTransactions(a + b, toIso, now)[..|a|] == NormalizeTransactions(a, toIso, now)
  {
    var left := NormalizeTransactions(a + b, toIso, now)[..|a|];
    var first := NormalizeTransactions(a, toIso, now);
    forall i | 0 <= i < |a| ensures left[i] == first[i] {
      ConcatAt(a, b, i);
    }
  }

  lemma NormalizeAtRight(a: seq<RawTransaction>, b: seq<RawTransaction>, toIso: string -> string, now: nat -> string)
    requires forall i :: 0 <= i < |b| ==> Conforming(b[i])
    requires forall i :: 0 <= i < |a + b| ==> Conforming((a + b)[i])
    ensures forall j :: 0 <= j < |b| ==>
      NormalizeTransactions(a + b, toIso, now)[|a| + j] == NormalizeTransaction(b[j], toIso, now(|a| + j))
  {
    forall j | 0 <= j < |b|
      ensures NormalizeTransactions(a + b, toIso, now)[|a| + j] == NormalizeTransaction(b[j], toIso, now(|a| + j))
    {
      ConcatAt(a, b, |a| + j);
    }
  }

  /** Fields the normaliser reads. */
  const RecognisedKeys: set<string> := {
    "hash", "tx_hash", "transaction_hash", "block_timestamp", "block_time", "timestamp",
    "category", "direction", "asset", "token_symbol", "token_in", "token_out",
    "amount_in", "amount_out", "amount", "usd_value", "value_usd", "protocol_name"
  }

  /** Unrecognised fields are ignored: two records that agree on every
      recognised field normalise identically. */
  lemma NormalizeIgnoresOtherFields(tx: RawTransaction, tx': RawTransaction, toIso: string -> string, now: string)
    requires Conforming(tx) && Conforming(tx')
    requires AgreeOn(tx, tx', RecognisedKeys)
    ensures NormalizeTransaction(tx, toIso, now) == NormalizeTransaction(tx', toIso, now)
  {
    assert forall k :: k in RecognisedKeys ==> SameField(tx, tx', k);
    assert AgreeOn(tx, tx', {"category", "direction"}) by {
      assert SameField(tx, tx', "category") && SameField(tx, tx', "direction");
    }
    DetectReadsCategoryAndDirection(tx, tx');
    HashReadsHashFields(tx, tx');
    TimestampReadsTimestampFields(tx, tx');
    GuessReadsGuessFields(tx, tx');
    ValueReadsValueFields(tx, tx');
    assert SameField(tx, tx', "token_in") && SameField(tx, tx', "token_symbol") && SameField(tx, tx', "token_out");
    assert SameField(tx, tx', "amount_in") && SameField(tx, tx', "amount_out") && SameField(tx, tx', "protocol_name");
    assert ExplicitSymbol(tx, "token_in") == ExplicitSymbol(tx', "token_in");
    assert ExplicitSymbol(tx, "token_symbol") == ExplicitSymbol(tx', "token_symbol");
    assert ExplicitSymbol(tx, "token_out") == ExplicitSymbol(tx', "token_out");
    assert StringAt(tx, "protocol_name") == StringAt(tx', "protocol_name");
  }

  lemma HashReadsHashFields(tx: RawTransaction, tx': RawTransaction)
    requires AgreeOn(tx, tx', RecognisedKeys)
    ensures ExtractHash(tx) == ExtractHash(tx')
  {
    assert SameField(tx, tx', "hash") && SameField(tx, tx', "tx_hash") && SameField(tx, tx', "transaction_hash");
  }

  lemma TimestampReadsTimestampFields(tx: RawTransaction, tx': RawTransaction)
    requires AgreeOn(tx, tx', RecognisedKeys)
    ensures TimestampCandidate(tx) == TimestampCandidate(tx')
  {
    assert SameField(tx, tx', "block_timestamp") && SameField(tx, tx', "block_time") && SameField(tx, tx', "timestamp");
  }

  lemma GuessReadsGuessFields(tx: RawTransaction, tx': RawTransaction)
    requires Conforming(tx) && Conforming(tx')
    requires AgreeOn(tx, tx', RecognisedKeys)
    ensures GuessTokensFromDirection(tx) == GuessTokensFromDirection(tx')
  {
    assert SameField(tx, tx', "asset") && SameField(tx, tx', "token_symbol");
    assert SameField(tx, tx', "amount") && SameField(tx, tx', "direction");
    assert GuessedAsset(tx) == GuessedAsset(tx');
    assert GuessedAmount(tx) == GuessedAmount(tx');
    assert TruthyAt(tx, "direction") == TruthyAt(tx', "direction");
  }

  lemma ValueReadsValueFields(tx: RawTransaction, tx': RawTransaction)
    requires AgreeOn(tx, tx', RecognisedKeys)
    ensures ResolveValueUSD(tx) == ResolveValueUSD(tx')
  {
    assert SameField(tx, tx', "usd_value") && SameField(tx, tx', "value_usd");
  }
}
