/**
 * Helpers around the Hedera JSON-RPC relay and mirror node
 * (src/utils/hederaHelpers.js): the error classifier, the filtering of
 * mirror-node contract results, and the decision part of the contract check.
 * The HTTP requests and RPC probes themselves are inputs.
 */
module HederaHelpers {
  import opened Wrappers
  import opened Strings
  import opened Seqs
  import Json

  // ------------------------------------------------------ error classifier

  /** A thrown value: its `message` (`""` when absent) and what `toString()` gives. */
  datatype JsError = JsError(message: string, asString: string)

  /** `error.message || error.toString()`. */
  function ErrorText(e: JsError): (t: string)
    ensures e.message != "" ==> t == e.message
    ensures e.message == "" ==> t == e.asString
  {
    if e.message != "" then e.message else e.asString
  }

  const RevertPattern: string := "call revert exception"
  const EmptyDataPattern: string := "data=\"0x\""
  const UnderpricedPattern: string := "transaction underpriced"
  const FundsPattern: string := "insufficient funds"
  const UnsupportedNetworkPattern: string := "network not supported"
  const ChainPattern: string := "chain"

  datatype Category = IndexingDelay | GasTooLow | InsufficientHbar | NetworkConfiguration | ContractError

  /** The first pattern group that matches decides; nothing matching is the generic category. */
  function CategoryOf(text: string): (c: Category)
    ensures c == IndexingDelay <==> Contains(text, RevertPattern) && Contains(text, EmptyDataPattern)
    ensures c == GasTooLow <==>
      && !(Contains(text, RevertPattern) && Contains(text, EmptyDataPattern))
      && Contains(text, UnderpricedPattern)
    ensures c == InsufficientHbar <==>
      && !(Contains(text, RevertPattern) && Contains(text, EmptyDataPattern))
      && !Contains(text, UnderpricedPattern)
      && Contains(text, FundsPattern)
    ensures c == NetworkConfiguration <==>
      && !(Contains(text, RevertPattern) && Contains(text, EmptyDataPattern))
      && !Contains(text, UnderpricedPattern)
      && !Contains(text, FundsPattern)
      && (Contains(text, UnsupportedNetworkPattern) || Contains(text, ChainPattern))
    ensures c == ContractError <==>
      && !(Contains(text, RevertPattern) && Contains(text, EmptyDataPattern))
      && !Contains(text, UnderpricedPattern)
      && !Contains(text, FundsPattern)
      && !Contains(text, UnsupportedNetworkPattern)
      && !Contains(text, ChainPattern)
  {
    if Contains(text, RevertPattern) && Contains(text, EmptyDataPattern) then IndexingDelay
    else if Contains(text, UnderpricedPattern) then GasTooLow
    else if Contains(text, FundsPattern) then InsufficientHbar
    else if Contains(text, UnsupportedNetworkPattern) || Contains(text, ChainPattern) then NetworkConfiguration
    else ContractError
  }

  /** The record `handleHederaError` returns; absent members are `None`. */
  datatype ErrorInfo = ErrorInfo(
    kind: string,
    message: string,
    suggestion: string,
    shouldRetry: bool,
    retryDelay: Option<nat>,
    alternativeApproach: Option<string>)

  /** The records of the four fixed categories, as the source writes them. */
  const IndexingDelayInfo: ErrorInfo := ErrorInfo("Hedera RPC Indexing Delay",
    "Hedera RPC indexing delay detected. The contract exists but RPC is slow to respond.",
    "Try using wallet connection instead of RPC, or wait for indexing to complete.",
    true, Some(30000), Some("Use wallet connection or Mirror Node API"))

  const GasTooLowInfo: ErrorInfo := ErrorInfo("Gas Price Too Low",
    "Transaction gas price is below Hedera minimum (350 gwei).",
    "Increase gas price to at least 350 gwei.",
    true, Some(5000), None)

  const InsufficientHbarInfo: ErrorInfo := ErrorInfo("Insufficient HBAR",
    "Insufficient HBAR balance for transaction fees.",
    "Add HBAR to your wallet from the Hedera faucet.",
    false, None, None)

  const NetworkConfigurationInfo: ErrorInfo := ErrorInfo("Network Configuration",
    "Wallet not connected to Hedera Testnet.",
    "Switch to Hedera Testnet (Chain ID: 296) in your wallet.",
    false, None, None)

  const ContractErrorKind: string := "Contract Error"
  const ContractErrorSuggestion: string := "Check your connection and try again, or try using wallet connection."
  const ContractErrorAlternative: string := "Try wallet connection instead of RPC"

  /** The record for one category; `raw` is the error's own text, shown only by the generic category. */
  function CategoryInfo(c: Category, raw: string): (r: ErrorInfo)
    ensures c == IndexingDelay ==> r.shouldRetry && r.retryDelay == Some(30000) && r.alternativeApproach.Some?
    ensures c == GasTooLow ==> r.shouldRetry && r.retryDelay == Some(5000) && r.alternativeApproach.None?
    ensures c == InsufficientHbar ==> !r.shouldRetry && r.retryDelay.None?
    ensures c == NetworkConfiguration ==> !r.shouldRetry && r.retryDelay.None?
    ensures c == ContractError ==> r.kind == ContractErrorKind && r.shouldRetry && r.retryDelay == Some(10000) && r.message == raw
    ensures r.retryDelay.Some? <==> r.shouldRetry
  {
    match c
    case IndexingDelay => IndexingDelayInfo
    case GasTooLow => GasTooLowInfo
    case InsufficientHbar => InsufficientHbarInfo
    case NetworkConfiguration => NetworkConfigurationInfo
    case ContractError =>
      ErrorInfo(ContractErrorKind, raw, ContractErrorSuggestion, true, Some(10000), Some(ContractErrorAlternative))
  }

  /** `handleHederaError`: the record of the first pattern group the error's text matches, tested in the source's order. */
  function HandleError(e: JsError): (r: ErrorInfo)
    ensures var t := ErrorText(e);
      Contains(t, RevertPattern) && Contains(t, EmptyDataPattern) ==> r == IndexingDelayInfo
    ensures var t := ErrorText(e);
      !(Contains(t, RevertPattern) && Contains(t, EmptyDataPattern)) && Contains(t, UnderpricedPattern) ==>
        r == GasTooLowInfo
    ensures var t := ErrorText(e);
      && !(Contains(t, RevertPattern) && Contains(t, EmptyDataPattern))
      && !Contains(t, UnderpricedPattern) && Contains(t, FundsPattern) ==>
        r == InsufficientHbarInfo
    ensures var t := ErrorText(e);
      && !(Contains(t, RevertPattern) && Contains(t, EmptyDataPattern))
      && !Contains(t, UnderpricedPattern) && !Contains(t, FundsPattern)
      && (Contains(t, UnsupportedNetworkPattern) || Contains(t, ChainPattern)) ==>
        r == NetworkConfigurationInfo
    ensures var t := ErrorText(e);
      && !(Contains(t, RevertPattern) && Contains(t, EmptyDataPattern))
      && !Contains(t, UnderpricedPattern) && !Contains(t, FundsPattern)
      && !Contains(t, UnsupportedNetworkPattern) && !Contains(t, ChainPattern) ==>
        r == ErrorInfo(ContractErrorKind, t, ContractErrorSuggestion, true, Some(10000), Some(ContractErrorAlternative))
  {
    var raw := ErrorText(e);
    CategoryInfo(CategoryOf(raw), raw)
  }

  /** A text holding both the revert phrase and `data="0x"`, wherever they sit, is an indexing delay. */
  lemma IndexingDelayDetected(text: string, i: int, j: int)
    requires OccursAt(text, RevertPattern, i) && OccursAt(text, EmptyDataPattern, j)
    ensures CategoryOf(text) == IndexingDelay
  {
    ContainsAt(text, RevertPattern);
    ContainsAt(text, EmptyDataPattern);
  }

  /** The indexing-delay test wins over every later one, even when the text also mentions gas, funds or the chain. */
  lemma IndexingDelayWinsOverLaterPatterns(before: string, middle: string, after: string)
    ensures CategoryOf(before + RevertPattern + middle + EmptyDataPattern + after) == IndexingDelay
  {
    var text := before + RevertPattern + middle + EmptyDataPattern + after;
    assert OccursAt(text, RevertPattern, |before|) by {
      assert text[|before|..|before| + |RevertPattern|] == RevertPattern;
    }
    assert OccursAt(text, EmptyDataPattern, |before| + |RevertPattern| + |middle|) by {
      var k := |before| + |RevertPattern| + |middle|;
      assert text[k..k + |EmptyDataPattern|] == EmptyDataPattern;
    }
    IndexingDelayDetected(text, |before|, |before| + |RevertPattern| + |middle|);
  }

  /** Any mention of "chain" keeps an error out of the generic category, so its raw text is never shown. */
  lemma ChainMentionNeverGeneric(text: string, i: int)
    requires OccursAt(text, ChainPattern, i)
    ensures CategoryOf(text) != ContractError
  {
    ContainsAt(text, ChainPattern);
  }

  /** The revert phrase alone, without `data="0x"` or any other pattern, is the generic category. */
  lemma RevertWithoutEmptyDataIsGeneric(text: string)
    requires Contains(text, RevertPattern) && !Contains(text, EmptyDataPattern)
    requires !Contains(text, UnderpricedPattern) && !Contains(text, FundsPattern)
    requires !Contains(text, UnsupportedNetworkPattern) && !Contains(text, ChainPattern)
    ensures HandleError(JsError(text, "")).kind == ContractErrorKind
    ensures text != "" ==> HandleError(JsError(text, "")).message == text
  {
  }

  // ------------------------------------------------ mirror-node records

  /** A JSON member that may be absent (`undefined`), `null`, or a string. */
  datatype Field = Undefined | Null | Text(s: string)

  predicate Truthy(f: Field) {
    f.Text? && f.s != ""
  }

  /** The members of one mirror-node contract result that the helpers read. */
  datatype ContractResult = ContractResult(callResult: Field, errorMessage: Field, functionParameters: Field)

  /** The selector of `createToken`, searched for in the call's parameters. */
  const CreateTokenSelector: string := "72b3b620"

  /** A successful `createToken` call: a non-trivial result, `error_message === null`, and the selector in the parameters. */
  predicate IsTokenCreation(tx: ContractResult)
    ensures IsTokenCreation(tx) ==> CallResultText(tx) != "" && CallResultText(tx) != "0x"
  {
    && Truthy(tx.callResult) && tx.callResult.s != "0x"
    && tx.errorMessage == Null
    && Truthy(tx.functionParameters) && Contains(tx.functionParameters.s, CreateTokenSelector)
  }

  /** A JavaScript number as `parseInt` can produce it here. */
  datatype JsNumber = NaN | Finite(n: nat)

  /** The longest prefix of hexadecimal digits. */
  function HexPrefix(s: string): (r: string)
    ensures r <= s && Json.AllHex(r)
    ensures |r| < |s| ==> !Json.IsHexDigit(s[|r|])
  {
    if s == [] || !Json.IsHexDigit(s[0]) then []
    else [s[0]] + HexPrefix(s[1..])
  }

  /** `parseInt(s, 16)`: the value of the leading hex digits, NaN when there are none. */
  function ParseIntHex(s: string): (r: JsNumber)
    ensures r.NaN? <==> s == [] || !Json.IsHexDigit(s[0])
  {
    var digits := HexPrefix(s);
    if digits == [] then NaN else Finite(Json.HexNumber(digits))
  }

  /** The token id `getContractNFTs` reads from a call result: its last 64 characters, when it has at least 66. */
  function TokenIdOf(callResult: string): (r: Option<JsNumber>)
    ensures r.Some? <==> |callResult| >= 66
  {
    if |callResult| >= 66 then Some(ParseIntHex(callResult[|callResult| - 64..])) else None
  }

  function CallResultText(tx: ContractResult): string {
    if tx.callResult.Text? then tx.callResult.s else ""
  }

  /** The `map` then `filter(id => id !== null)` step: short results are dropped, NaN is kept. */
  function ExtractIds(kept: seq<ContractResult>): (ids: seq<JsNumber>)
    ensures |ids| <= |kept|
  {
    if kept == [] then [] else IdsOf(kept[0]) + ExtractIds(kept[1..])
  }

  /** What one kept transaction contributes: its token id, or nothing when its result is too short. */
  function IdsOf(tx: ContractResult): (ids: seq<JsNumber>)
    ensures |ids| <= 1
  {
    var id := TokenIdOf(CallResultText(tx));
    if id.Some? then [id.value] else []
  }

  /** `getContractNFTs` over the transactions the mirror node returned. */
  function ContractNfts(txs: seq<ContractResult>): (ids: seq<JsNumber>)
    ensures |ids| <= |Filter(IsTokenCreation, txs)| <= |txs|
  {
    ExtractIds(Filter(IsTokenCreation, txs))
  }

  lemma {:induction false} ExtractIdsAppend(a: seq<ContractResult>, b: seq<ContractResult>)
    ensures ExtractIds(a + b) == ExtractIds(a) + ExtractIds(b)
  {
    if a == [] {
      assert a + b == b;
    } else {
      assert (a + b)[0] == a[0];
      assert (a + b)[1..] == a[1..] + b;
      ExtractIdsAppend(a[1..], b);
      assert ExtractIds(a + b) == IdsOf(a[0]) + (ExtractIds(a[1..]) + ExtractIds(b));
      assert ExtractIds(a) == IdsOf(a[0]) + ExtractIds(a[1..]);
      Regroup(IdsOf(a[0]), ExtractIds(a[1..]), ExtractIds(b));
    }
  }

  /** When every kept result is long enough, exactly one id comes out per kept result. */
  lemma {:induction false} ExtractIdsAllLong(kept: seq<ContractResult>)
    requires forall i :: 0 <= i < |kept| ==> |CallResultText(kept[i])| >= 66
    ensures |ExtractIds(kept)| == |kept|
  {
    if kept != [] {
      ExtractIdsAllLong(kept[1..]);
    }
  }

  /** The ids come out in transaction order: the pipeline distributes over concatenation. */
  lemma ContractNftsAppend(a: seq<ContractResult>, b: seq<ContractResult>)
    ensures ContractNfts(a + b) == ContractNfts(a) + ContractNfts(b)
  {
    FilterAppend(IsTokenCreation, a, b);
    ExtractIdsAppend(Filter(IsTokenCreation, a), Filter(IsTokenCreation, b));
  }

  /** A transaction that is not a successful `createToken` call contributes nothing. */
  lemma NonCreationIgnored(tx: ContractResult)
    requires !IsTokenCreation(tx)
    ensures ContractNfts([tx]) == []
  {
  }

  /** A successful `createToken` call contributes exactly what its call result yields. */
  lemma CreationYieldsId(tx: ContractResult)
    requires IsTokenCreation(tx)
    ensures ContractNfts([tx]) == IdsOf(tx)
  {
    assert Filter(IsTokenCreation, [tx]) == [tx];
    assert [tx][1..] == [];
  }

  /**
   * A successful `createToken` call whose result word ends in the 64-digit hex
   * of `n` is reported as token `n`.
   */
  lemma MintedTokenListed(tx: ContractResult, head: string, n: nat)
    requires |head| >= 2 && n < Json.Pow16(64)
    requires tx.callResult == Text(head + HexFixed(n, 64))
    requires tx.errorMessage == Null
    requires Truthy(tx.functionParameters) && Contains(tx.functionParameters.s, CreateTokenSelector)
    ensures ContractNfts([tx]) == [Finite(n)]
  {
    var word := head + HexFixed(n, 64);
    assert |word| >= 66;
    assert word != "0x";
    CreationYieldsId(tx);
    CreatedTokenRecovered(head, n);
  }

  /** `n` as exactly `width` lower-case hex digits, most significant first. */
  function HexFixed(n: nat, width: nat): (ds: string)
    ensures |ds| == width && Json.AllHex(ds)
  {
    if width == 0 then []
    else
      Json.HexDigitCharValue(n % 16);
      HexFixed(n / 16, width - 1) + [Json.HexDigitChar(n % 16)]
  }

  lemma {:induction false} HexFixedValue(n: nat, width: nat)
    requires n < Json.Pow16(width)
    ensures Json.HexNumber(HexFixed(n, width)) == n
  {
    if width > 0 {
      var ds := HexFixed(n, width);
      assert ds[..width - 1] == HexFixed(n / 16, width - 1);
      HexFixedValue(n / 16, width - 1);
      Json.HexDigitCharValue(n % 16);
    }
  }

  lemma {:induction false} HexPrefixAllHex(s: string)
    requires Json.AllHex(s)
    ensures HexPrefix(s) == s
  {
    if s != [] {
      HexPrefixAllHex(s[1..]);
      assert [s[0]] + s[1..] == s;
    }
  }

  /** A `createToken` result word `0x` + 64 hex digits yields back the number written in it. */
  lemma CreatedTokenRecovered(head: string, n: nat)
    requires |head| >= 2 && n < Json.Pow16(64)
    ensures TokenIdOf(head + HexFixed(n, 64)) == Some(Finite(n))
  {
    var word := head + HexFixed(n, 64);
    assert word[|word| - 64..] == HexFixed(n, 64);
    HexPrefixAllHex(HexFixed(n, 64));
    HexFixedValue(n, 64);
  }

  /** A long result whose last 64 characters start with a non-hex character yields NaN, which is kept. */
  lemma NonHexWordYieldsNaN(callResult: string)
    requires |callResult| >= 66 && !Json.IsHexDigit(callResult[|callResult| - 64])
    ensures TokenIdOf(callResult) == Some(NaN)
  {
  }

  // --------------------------------------------------- contract id rewrite

  /** The contract id used whenever the caller passes an EVM address. */
  const KnownContractId: string := "0.0.6519500"

  /** The rewrite at the top of `getContractTransactions`. */
  function ContractIdFor(address: string): (id: string)
    ensures StartsWith(address, "0x") ==> id == KnownContractId
    ensures !StartsWith(address, "0x") ==> id == address
  {
    if StartsWith(address, "0x") then KnownContractId else address
  }

  /** The rewrite never produces an EVM address, so applying it twice changes nothing. */
  lemma ContractIdForIdempotent(address: string)
    ensures !StartsWith(ContractIdFor(address), "0x")
    ensures ContractIdFor(ContractIdFor(address)) == ContractIdFor(address)
  {
    assert KnownContractId[1] == '.';
  }

  // ------------------------------------------------------ activity filter

  predicate MentionsFunction(r: ContractResult, name: string) {
    Truthy(r.functionParameters) && Contains(r.functionParameters.s, name)
  }

  /** `getLatestContractActivity`: the results whose parameters mention the name, or all of them when no name is given. */
  function LatestActivity(results: seq<ContractResult>, functionName: Option<string>): (r: seq<ContractResult>)
    ensures functionName.None? || functionName.value == "" ==> r == results
    ensures functionName.Some? && functionName.value != "" ==>
      && (forall x :: x in r ==> x in results && MentionsFunction(x, functionName.value))
      && (forall x :: x in results && MentionsFunction(x, functionName.value) ==> x in r)
  {
    if functionName.None? || functionName.value == "" then results
    else Filter((x: ContractResult) => MentionsFunction(x, functionName.value), results)
  }

  /** The activity filter keeps results in their original order. */
  lemma LatestActivityAppend(a: seq<ContractResult>, b: seq<ContractResult>, functionName: Option<string>)
    ensures LatestActivity(a + b, functionName) == LatestActivity(a, functionName) + LatestActivity(b, functionName)
  {
    if functionName.Some? && functionName.value != "" {
      FilterAppend((x: ContractResult) => MentionsFunction(x, functionName.value), a, b);
    }
  }

  /** Filtering results that all mention the name changes nothing. */
  lemma LatestActivityAllMatch(results: seq<ContractResult>, name: string)
    requires forall x :: x in results ==> MentionsFunction(x, name)
    ensures LatestActivity(results, Some(name)) == results
  {
    if name != "" {
      FilterAll((x: ContractResult) => MentionsFunction(x, name), results);
    }
  }

  // ------------------------------------------------ comprehensive check

  datatype Approach = Unknown | Rpc | Wallet | WalletWithMirrorFallback | RetryLater

  function ApproachText(a: Approach): string {
    match a
    case Unknown => "unknown"
    case Rpc => "rpc"
    case Wallet => "wallet"
    case WalletWithMirrorFallback => "wallet-with-mirror-fallback"
    case RetryLater => "retry-later"
  }

  /** What the mirror node says about a contract (`getContractInfo`'s non-null answer). */
  datatype ContractInfo = ContractInfo(deleted: bool)

  datatype Verification = Verification(
    rpcWorking: bool,
    mirrorNodeConfirmed: bool,
    contractExists: bool,
    canCallFunctions: bool,
    recommendedApproach: Approach)

  /** The final recommendation: RPC if a call worked, else the wallet backed by the mirror node, else later. */
  function Recommendation(rpcWorking: bool, mirrorNodeConfirmed: bool): (a: Approach)
    ensures a == Rpc <==> rpcWorking
    ensures a == WalletWithMirrorFallback <==> !rpcWorking && mirrorNodeConfirmed
    ensures a == RetryLater <==> !rpcWorking && !mirrorNodeConfirmed
  {
    if rpcWorking then Rpc
    else if mirrorNodeConfirmed then WalletWithMirrorFallback
    else RetryLater
  }

  /**
   * `verifyContractComprehensive`: three probes update the result record in
   * turn. `code` is `None` when `getCode` throws, `nameCallSucceeded` says
   * whether `name()` returned, and `info` is `None` when the mirror node
   * lookup fails (`getContractInfo` returns `null`).
   */
  method VerifyContract(code: Option<string>, nameCallSucceeded: bool, info: Option<ContractInfo>) returns (results: Verification)
    ensures results.rpcWorking == results.canCallFunctions == nameCallSucceeded
    ensures results.mirrorNodeConfirmed <==> info.Some? && !info.value.deleted
    ensures results.contractExists <==> (code.Some? && code.value != "0x") || results.mirrorNodeConfirmed
    ensures results.recommendedApproach == Recommendation(results.rpcWorking, results.mirrorNodeConfirmed)
    ensures results.recommendedApproach != Unknown && results.recommendedApproach != Wallet
  {
    results := Verification(false, false, false, false, Unknown);
    if code.Some? && code.value != "0x" {
      results := results.(contractExists := true);
    }
    if nameCallSucceeded {
      results := results.(canCallFunctions := true, rpcWorking := true, recommendedApproach := Rpc);
    } else {
      results := results.(recommendedApproach := Wallet);
    }
    if info.Some? && !info.value.deleted {
      results := results.(mirrorNodeConfirmed := true, contractExists := true);
    }
    if results.rpcWorking {
      results := results.(recommendedApproach := Rpc);
    } else if results.mirrorNodeConfirmed {
      results := results.(recommendedApproach := WalletWithMirrorFallback);
    } else {
      results := results.(recommendedApproach := RetryLater);
    }
  }
}
