/** The field extractors of packages/core/src/index.ts: symbol
    canonicalisation, hash, timestamp, direction-based token guess and USD
    value. Each reads the first usable one of several alternate field names. */
module Extract {
  import opened JsText
  import opened JsValue
  import opened Raw

  /** normalizeTokenSymbol: undefined and "" give undefined; any other string
      is trimmed and upper-cased. */
  function NormalizeTokenSymbol(symbol: Option<string>): (r: Option<string>)
    ensures r.None? <==> !Present(symbol)
    ensures r.Some? ==> |r.value| <= |symbol.value|
    ensures r.Some? ==> forall i :: 0 <= i < |r.value| ==> !IsLower(r.value[i])
    ensures r.Some? && r.value != "" ==> !IsSpace(r.value[0]) && !IsSpace(r.value[|r.value| - 1])
    ensures r.Some? ==> ToLowerCase(r.value) == ToLowerCase(Trim(symbol.value))
  {
    if !Present(symbol) then None
    else
      var t := Trim(symbol.value);
      TrimUpperCommute(symbol.value);
      LowerOfUpper(t);
      Some(ToUpperCase(t))
  }

  /** Canonicalising a canonical symbol changes nothing. The one exception is a
      blank input, which canonicalises to "" (see BlankSymbolIsEmpty), and ""
      canonicalises to undefined. */
  lemma NormalizeTokenSymbolIdempotent(symbol: Option<string>)
    requires NormalizeTokenSymbol(symbol) != Some("")
    ensures NormalizeTokenSymbol(NormalizeTokenSymbol(symbol)) == NormalizeTokenSymbol(symbol)
  {
    if Present(symbol) {
      var t := Trim(symbol.value);
      TrimIdempotent(symbol.value);
      TrimUpperCommute(t);
      UpperIdempotent(t);
    }
  }

  /** A non-empty string of whitespace is truthy, so it is trimmed to "" rather
      than mapped to undefined. */
  lemma BlankSymbolIsEmpty(s: string)
    requires s != "" && AllSpace(s)
    ensures NormalizeTokenSymbol(Some(s)) == Some("")
  {
    LeadingSpaceShape(s);
  }

  /** Canonicalisation ignores letter case: two strings that agree up to case
      canonicalise to the same symbol. */
  lemma NormalizeTokenSymbolCaseInsensitive(s: string, t: string)
    requires ToUpperCase(s) == ToUpperCase(t)
    ensures NormalizeTokenSymbol(Some(s)) == NormalizeTokenSymbol(Some(t))
  {
    TrimUpperCommute(s);
    TrimUpperCommute(t);
  }

  /** " usdc ", "Usdc" and "USDC" all canonicalise to "USDC"; "" and
      undefined to undefined. */
  lemma NormalizeTokenSymbolExamples()
    ensures NormalizeTokenSymbol(Some(" usdc ")) == Some("USDC")
    ensures NormalizeTokenSymbol(Some("Usdc")) == Some("USDC")
    ensures NormalizeTokenSymbol(Some("USDC")) == Some("USDC")
    ensures NormalizeTokenSymbol(Some("")) == None
    ensures NormalizeTokenSymbol(None) == None
  {
    UsdcUpper();
    TrimOfTrimmed("usdc");
    TrimOfTrimmed("Usdc");
    TrimOfTrimmed("USDC");
    PaddedUsdcTrim();
  }

  lemma PaddedUsdcTrim()
    ensures Trim(" usdc ") == "usdc"
  {
    var s, t := " usdc ", "usdc ";
    assert IsSpace(s[0]) && s[1..] == t && !IsSpace(t[0]);
    LeadingSpaceUnique(t, 0);
    assert LeadingSpace(s) == 1;
    assert IsSpace(t[4]) && t[..4] == "usdc" && !IsSpace(t[3]);
    TrailingSpaceUnique("usdc", 0);
    assert TrailingSpace(t) == 1;
  }

  lemma UsdcUpper()
    ensures ToUpperCase("usdc") == "USDC"
    ensures ToUpperCase("Usdc") == "USDC"
    ensures ToUpperCase("USDC") == "USDC"
  {
    assert UpperChar('u') == 'U' && UpperChar('s') == 'S' && UpperChar('d') == 'D' && UpperChar('c') == 'C';
  }

  /** The field holds a non-empty string (`typeof v === 'string' && v`). */
  predicate HasNonEmptyString(tx: RawTransaction, key: string) {
    NonEmptyStringAt(tx, key).Some?
  }

  /** keys[k] is the first of keys whose field holds a non-empty string. */
  predicate IsFirstNonEmpty(tx: RawTransaction, keys: seq<string>, k: int) {
    && 0 <= k < |keys|
    && HasNonEmptyString(tx, keys[k])
    && forall j :: 0 <= j < k ==> !HasNonEmptyString(tx, keys[j])
  }

  /** The precedence rule shared by the hash and timestamp extractors, stated
      over an ordered list of field names: the value of the first field that
      holds a non-empty string, or undefined when none does. */
  function FirstNonEmptyString(tx: RawTransaction, keys: seq<string>): (r: Option<string>)
    ensures r.None? <==> forall k :: 0 <= k < |keys| ==> !HasNonEmptyString(tx, keys[k])
    ensures r.Some? ==> exists k :: IsFirstNonEmpty(tx, keys, k) && tx[keys[k]] == Str(r.value)
    decreases |keys|
  {
    if keys == [] then None
    else if HasNonEmptyString(tx, keys[0]) then
      assert IsFirstNonEmpty(tx, keys, 0);
      Some(tx[keys[0]].s)
    else
      var r := FirstNonEmptyString(tx, keys[1..]);
      assert forall k :: 1 <= k < |keys| ==> keys[k] == keys[1..][k - 1];
      if r.Some? then
        var k :| IsFirstNonEmpty(tx, keys[1..], k) && tx[keys[1..][k]] == Str(r.value);
        assert IsFirstNonEmpty(tx, keys, k + 1);
        r
      else
        r
  }

  const HashKeys: seq<string> := ["hash", "tx_hash", "transaction_hash"]

  /** extractHash: the first non-empty string among `hash`, `tx_hash` and
      `transaction_hash`; values of other types and empty strings are
      skipped; "" (never undefined) when none qualifies. */
  function ExtractHash(tx: RawTransaction): (r: string)
    ensures HasNonEmptyString(tx, "hash") ==> r == tx["hash"].s
    ensures !HasNonEmptyString(tx, "hash") && HasNonEmptyString(tx, "tx_hash") ==> r == tx["tx_hash"].s
    ensures !HasNonEmptyString(tx, "hash") && !HasNonEmptyString(tx, "tx_hash") ==>
              r == (if HasNonEmptyString(tx, "transaction_hash") then tx["transaction_hash"].s else "")
    ensures r == "" <==> !HasNonEmptyString(tx, "hash") && !HasNonEmptyString(tx, "tx_hash") && !HasNonEmptyString(tx, "transaction_hash")
  {
    var h := Or(Or(NonEmptyStringAt(tx, "hash"), NonEmptyStringAt(tx, "tx_hash")), NonEmptyStringAt(tx, "transaction_hash"));
    if h.Some? then h.value else ""
  }

  /** The hash follows the shared precedence rule over HashKeys. */
  lemma ExtractHashIsFirstNonEmpty(tx: RawTransaction)
    ensures ExtractHash(tx) == (match FirstNonEmptyString(tx, HashKeys) case Some(h) => h case None => "")
  {
    assert HashKeys[1..][1..] == ["transaction_hash"];
  }

  const TimestampKeys: seq<string> := ["block_timestamp", "block_time", "timestamp"]

  /** The string extractTimestamp hands to the date parser: the first
      non-empty string among `block_timestamp`, `block_time` and
      `timestamp`, or undefined when the current instant must be used. */
  function TimestampCandidate(tx: RawTransaction): (r: Option<string>)
    ensures r.Some? ==> r.value != ""
    ensures HasNonEmptyString(tx, "block_timestamp") ==> r == Some(tx["block_timestamp"].s)
    ensures !HasNonEmptyString(tx, "block_timestamp") && HasNonEmptyString(tx, "block_time") ==> r == Some(tx["block_time"].s)
    ensures !HasNonEmptyString(tx, "block_timestamp") && !HasNonEmptyString(tx, "block_time") && HasNonEmptyString(tx, "timestamp") ==>
              r == Some(tx["timestamp"].s)
    ensures r.None? <==> !HasNonEmptyString(tx, "block_timestamp") && !HasNonEmptyString(tx, "block_time") && !HasNonEmptyString(tx, "timestamp")
  {
    Or(Or(NonEmptyStringAt(tx, "block_timestamp"), NonEmptyStringAt(tx, "block_time")), NonEmptyStringAt(tx, "timestamp"))
  }

  /** The timestamp candidate follows the shared precedence rule. */
  lemma TimestampCandidateIsFirstNonEmpty(tx: RawTransaction)
    ensures TimestampCandidate(tx) == FirstNonEmptyString(tx, TimestampKeys)
  {
    assert TimestampKeys[1..][1..] == ["timestamp"];
  }

  /** extractTimestamp. The date parser followed by toISOString is the
      parameter toIso; now is the ISO text of the current instant, read when
      this record is normalised. The chosen candidate, or now when there is
      none, is what gets parsed. */
  function ExtractTimestamp(tx: RawTransaction, toIso: string -> string, now: string): (r: string)
    ensures TimestampCandidate(tx).Some? ==> r == toIso(TimestampCandidate(tx).value)
    ensures TimestampCandidate(tx).None? ==> r == toIso(now)
  {
    var candidate := TimestampCandidate(tx);
    toIso(if candidate.Some? then candidate.value else now)
  }

  /** The four token fields of a normalised record, as guessed from a record's
      direction. */
  datatype Sides = Sides(tokenIn: Option<string>, amountIn: Option<string>, tokenOut: Option<string>, amountOut: Option<string>)

  /** The asset of a direction guess: `asset`, else `token_symbol`,
      canonicalised. */
  function GuessedAsset(tx: RawTransaction): (r: Option<string>)
    requires Conforming(tx)
    ensures HasNonEmptyString(tx, "asset") ==> r == NormalizeTokenSymbol(StringAt(tx, "asset"))
    ensures !HasNonEmptyString(tx, "asset") ==> r == NormalizeTokenSymbol(StringAt(tx, "token_symbol"))
  {
    NormalizeTokenSymbol(Or(StringAt(tx, "asset"), StringAt(tx, "token_symbol")))
  }

  /** The amount of a direction guess: `String(amount)` when `amount` is
      defined. */
  function GuessedAmount(tx: RawTransaction): (r: Option<string>)
    ensures r.Some? <==> "amount" in tx
    ensures "amount" in tx && tx["amount"].Str? ==> r == Some(tx["amount"].s)
    ensures "amount" in tx && tx["amount"].Num? ==> r == Some(tx["amount"].n.text)
  {
    StringifiedAt(tx, "amount")
  }

  /** The lower-cased direction of a record whose direction is truthy. */
  function DirectionText(tx: RawTransaction): (r: string)
    requires TruthyAt(tx, "direction")
    ensures |r| == |Stringify(tx["direction"])|
    ensures forall i :: 0 <= i < |r| ==> !IsUpper(r[i])
    ensures ToUpperCase(r) == ToUpperCase(Stringify(tx["direction"]))
  {
    UpperOfLower(Stringify(tx["direction"]));
    ToLowerCase(Stringify(tx["direction"]))
  }

  /** The record's direction says funds came into the wallet. */
  predicate IsInbound(tx: RawTransaction) {
    TruthyAt(tx, "direction") && (DirectionText(tx) == "receive" || DirectionText(tx) == "in")
  }

  /** guessTokensFromDirection. */
  function GuessTokensFromDirection(tx: RawTransaction): (r: Sides)
    requires Conforming(tx)
    ensures (r.tokenIn.None? && r.amountIn.None?) || (r.tokenOut.None? && r.amountOut.None?)
    ensures IsInbound(tx) ==> r == Sides(None, None, GuessedAsset(tx), GuessedAmount(tx))
    ensures !IsInbound(tx) ==> r == Sides(GuessedAsset(tx), GuessedAmount(tx), None, None)
  {
    var asset := GuessedAsset(tx);
    var amount := GuessedAmount(tx);
    if !TruthyAt(tx, "direction") then Sides(asset, amount, None, None)
    else
      var direction := DirectionText(tx);
      if direction == "send" || direction == "out" then Sides(asset, amount, None, None)
      else if direction == "receive" || direction == "in" then Sides(None, None, asset, amount)
      else Sides(asset, amount, None, None)
  }

  /** The direction is read without regard to letter case: "RECEIVE",
      "Receive" and "receive" all put the guess on the out side. */
  lemma DirectionCaseInsensitive(tx: RawTransaction, tx': RawTransaction)
    requires Conforming(tx) && Conforming(tx')
    requires AgreeOn(tx, tx', {"asset", "token_symbol", "amount"})
    requires TruthyAt(tx, "direction") && TruthyAt(tx', "direction")
    requires tx["direction"].Str? && tx'["direction"].Str?
    requires ToLowerCase(tx["direction"].s) == ToLowerCase(tx'["direction"].s)
    ensures GuessTokensFromDirection(tx) == GuessTokensFromDirection(tx')
  {
    assert "asset" in {"asset", "token_symbol", "amount"};
    assert "token_symbol" in {"asset", "token_symbol", "amount"};
    assert "amount" in {"asset", "token_symbol", "amount"};
  }

  /** resolveValueUSD: `usd_value` if it is a number, else `value_usd` if it
      is a number, else undefined. */
  function ResolveValueUSD(tx: RawTransaction): (r: Option<JsNumber>)
    ensures "usd_value" in tx && tx["usd_value"].Num? ==> r == Some(tx["usd_value"].n)
    ensures !("usd_value" in tx && tx["usd_value"].Num?) && "value_usd" in tx && tx["value_usd"].Num? ==> r == Some(tx["value_usd"].n)
    ensures r.None? <==> !("usd_value" in tx && tx["usd_value"].Num?) && !("value_usd" in tx && tx["value_usd"].Num?)
  {
    if "usd_value" in tx && tx["usd_value"].Num? then Some(tx["usd_value"].n)
    else if "value_usd" in tx && tx["value_usd"].Num? then Some(tx["value_usd"].n)
    else None
  }
}
