/**
 * The owned-items view (src/components/Sender.jsx): the user's items are read
 * through the wallet when it connects and over the JSON-RPC relay otherwise.
 * A failed read is diagnosed (error classifier, contract check, mirror-node
 * token scan) but always ends with an empty list; the item mapping is
 * all-or-nothing.
 */
module Sender {
  import opened Wrappers
  import opened MarketItems
  import HederaHelpers

  /** The answers the diagnostics of a failed read receive; they are only logged. */
  datatype Probes = Probes(
    code: Option<string>,
    nameCallSucceeded: bool,
    info: Option<HederaHelpers.ContractInfo>,
    transactions: seq<HederaHelpers.ContractResult>)

  /** The items `loadWaste` ends with. */
  function OwnedItems(walletConnects: bool, viaWallet: PathOutcome, viaRpc: PathOutcome, entries: map<string, string>): (nfts: seq<Listing>)
    ensures var fetched := if walletConnects then viaWallet else viaRpc;
      nfts != [] ==> fetched.Returned? && nfts == CollectValid(fetched.items, entries) && |nfts| == |fetched.items|
  {
    var fetched := if walletConnects then viaWallet else viaRpc;
    if fetched.Threw? || fetched.items == [] then []
    else
      MapAllAgreesWithCollect(fetched.items, entries);
      MapAll(fetched.items, entries).GetOr([])
  }

  /** A connected wallet is always used: the RPC answer is never consulted. */
  lemma WalletFirst(viaWallet: PathOutcome, rpc1: PathOutcome, rpc2: PathOutcome, entries: map<string, string>)
    ensures OwnedItems(true, viaWallet, rpc1, entries) == OwnedItems(true, viaWallet, rpc2, entries)
  {
  }

  /** Without a wallet the RPC answer decides, whatever the wallet would have said. */
  lemma RpcWhenNoWallet(wallet1: PathOutcome, wallet2: PathOutcome, viaRpc: PathOutcome, entries: map<string, string>)
    ensures OwnedItems(false, wallet1, viaRpc, entries) == OwnedItems(false, wallet2, viaRpc, entries)
  {
  }

  /** A read that throws, or returns no records, ends with the empty list whatever the diagnostics find. */
  lemma NothingReadIsEmpty(walletConnects: bool, fetched: PathOutcome, entries: map<string, string>)
    requires fetched.Threw? || fetched.items == []
    ensures OwnedItems(walletConnects, fetched, fetched, entries) == []
  {
  }

  /** One item that fails to map empties the whole view. */
  lemma AllOrNothing(walletConnects: bool, items: seq<ItemFetch>, entries: map<string, string>, bad: int)
    requires 0 <= bad < |items| && ToListing(items[bad], entries).None?
    ensures OwnedItems(walletConnects, Returned(items), Returned(items), entries) == []
  {
    MapAllAgreesWithCollect(items, entries);
  }

  /** When every item maps, there is one listing per record, in the contract's order, exactly as the lenient mapping gives. */
  lemma OnePerRecord(walletConnects: bool, items: seq<ItemFetch>, entries: map<string, string>)
    requires forall i :: 0 <= i < |items| ==> ToListing(items[i], entries).Some?
    ensures OwnedItems(walletConnects, Returned(items), Returned(items), entries) == CollectValid(items, entries)
    ensures |OwnedItems(walletConnects, Returned(items), Returned(items), entries)| == |items|
  {
    MapAllAgreesWithCollect(items, entries);
  }

  /** The `nfts` and `loadingState` state of the owned-items page. */
  class SenderView {
    var nfts: seq<Listing>
    var loadingState: LoadingState

    constructor ()
      ensures nfts == [] && loadingState == NotLoaded
    {
      nfts := [];
      loadingState := NotLoaded;
    }

    /** The "No waste items owned yet" panel, with its refresh button. */
    predicate ShowsEmptyView()
      reads this
    {
      loadingState == Loaded && nfts == []
    }

    /**
     * `loadWaste`. The bytecode check only logs and has no counterpart here; on
     * a failed read the diagnostics run but only log. Whatever they answer, the
     * items are `OwnedItems` and the state ends loaded.
     */
    method LoadWaste(walletConnects: bool, viaWallet: PathOutcome, viaRpc: PathOutcome, probes: Probes, entries: map<string, string>)
      modifies this
      ensures nfts == OwnedItems(walletConnects, viaWallet, viaRpc, entries)
      ensures loadingState == Loaded
    {
      var fetched := if walletConnects then viaWallet else viaRpc;
      if fetched.Threw? {
        // The diagnostics below only log their results; none of them reaches the state.
        var errorInfo := HederaHelpers.HandleError(fetched.error);
        var verification := HederaHelpers.VerifyContract(probes.code, probes.nameCallSucceeded, probes.info);
        if verification.mirrorNodeConfirmed {
          var existing := HederaHelpers.ContractNfts(probes.transactions);
        }
        nfts := [];
        loadingState := Loaded;
        return;
      }
      if fetched.items == [] {
        nfts := [];
        loadingState := Loaded;
        return;
      }
      var mapped := MapAll(fetched.items, entries);
      if mapped.None? {
        nfts := [];
        loadingState := Loaded;
        return;
      }
      nfts := mapped.value;
      loadingState := Loaded;
    }

    /** The refresh button: back to not-loaded, then load again. */
    method Refresh(walletConnects: bool, viaWallet: PathOutcome, viaRpc: PathOutcome, probes: Probes, entries: map<string, string>)
      modifies this
      ensures nfts == OwnedItems(walletConnects, viaWallet, viaRpc, entries)
      ensures loadingState == Loaded
    {
      loadingState := NotLoaded;
      LoadWaste(walletConnects, viaWallet, viaRpc, probes, entries);
    }
  }
}
