/**
 * The marketplace view (src/components/Marketplace.jsx): market items are read
 * over the JSON-RPC relay first and through the user's wallet second; when
 * neither yields a listing the marketplace is shown empty.
 */
module Marketplace {
  import opened Wrappers
  import opened MarketItems
  import HederaHelpers

  /**
   * The listings `loadMarketplace` ends with. `setupOk` is false when building
   * the RPC provider or contract throws, which skips both attempts.
   */
  function SelectListings(setupOk: bool, rpc: PathOutcome, wallet: PathOutcome, entries: map<string, string>): (nfts: seq<Listing>)
    ensures !setupOk ==> nfts == []
    ensures setupOk && PathListings(rpc, entries) != [] ==> nfts == PathListings(rpc, entries)
    ensures nfts == [] || nfts == PathListings(rpc, entries) || nfts == PathListings(wallet, entries)
  {
    if !setupOk then []
    else if PathListings(rpc, entries) != [] then PathListings(rpc, entries)
    else PathListings(wallet, entries)
  }

  /** A non-empty RPC result is final: what the wallet would answer does not matter. */
  lemma RpcPreferred(rpc: PathOutcome, wallet1: PathOutcome, wallet2: PathOutcome, entries: map<string, string>)
    requires PathListings(rpc, entries) != []
    ensures SelectListings(true, rpc, wallet1, entries) == SelectListings(true, rpc, wallet2, entries) == PathListings(rpc, entries)
  {
  }

  /** When every RPC item fails, the wallet attempt decides. */
  lemma FailedRpcItemsFallBackToWallet(items: seq<ItemFetch>, wallet: PathOutcome, entries: map<string, string>)
    requires forall i :: 0 <= i < |items| ==> ToListing(items[i], entries).None?
    ensures SelectListings(true, Returned(items), wallet, entries) == PathListings(wallet, entries)
  {
    CollectValidEmptyIff(items, entries);
  }

  /** The marketplace is empty exactly when setup failed or both attempts yielded no listing. */
  lemma EmptyMarketplace(setupOk: bool, rpc: PathOutcome, wallet: PathOutcome, entries: map<string, string>)
    ensures SelectListings(setupOk, rpc, wallet, entries) == []
            <==> !setupOk || (PathListings(rpc, entries) == [] && PathListings(wallet, entries) == [])
  {
  }

  /** Every listing shown carries an on-chain price: none is made up by the view. */
  lemma ListingsAreReal(setupOk: bool, rpc: PathOutcome, wallet: PathOutcome, entries: map<string, string>, k: int)
    requires 0 <= k < |SelectListings(setupOk, rpc, wallet, entries)|
    ensures SelectListings(setupOk, rpc, wallet, entries)[k].price.Formatted?
  {
    if PathListings(rpc, entries) != [] {
      CollectValidPricesFormatted(rpc.items, entries, k);
    } else {
      CollectValidPricesFormatted(wallet.items, entries, k);
    }
  }

  /** The purchase as the wallet reports it: confirmed, or the error it threw. */
  datatype Purchase = Confirmed | PurchaseFailed(error: HederaHelpers.JsError)

  /** The `nfts` and `loadingState` state of the marketplace page. */
  class MarketplaceView {
    var nfts: seq<Listing>
    var loadingState: LoadingState

    constructor ()
      ensures nfts == [] && loadingState == NotLoaded
    {
      nfts := [];
      loadingState := NotLoaded;
    }

    /** The "No items available" panel, with its refresh button. */
    predicate ShowsEmptyView()
      reads this
    {
      loadingState == Loaded && nfts == []
    }

    /** `loadMarketplace`: RPC, then wallet, then empty; every exit sets the state to loaded. */
    method LoadMarketplace(setupOk: bool, rpc: PathOutcome, wallet: PathOutcome, entries: map<string, string>)
      modifies this
      ensures nfts == SelectListings(setupOk, rpc, wallet, entries)
      ensures loadingState == Loaded
      ensures ShowsEmptyView() <==> !setupOk || (PathListings(rpc, entries) == [] && PathListings(wallet, entries) == [])
    {
      if !setupOk {
        nfts := [];
        loadingState := Loaded;
        return;
      }
      if rpc.Returned? && |rpc.items| > 0 {
        var validItems := CollectValid(rpc.items, entries);
        if |validItems| > 0 {
          nfts := validItems;
          loadingState := Loaded;
          return;
        }
      }
      if wallet.Returned? && |wallet.items| > 0 {
        var validItems := CollectValid(wallet.items, entries);
        if |validItems| > 0 {
          nfts := validItems;
          loadingState := Loaded;
          return;
        }
      }
      nfts := [];
      loadingState := Loaded;
    }

    /** The refresh button: back to not-loaded, then load again. */
    method Refresh(setupOk: bool, rpc: PathOutcome, wallet: PathOutcome, entries: map<string, string>)
      modifies this
      ensures nfts == SelectListings(setupOk, rpc, wallet, entries)
      ensures loadingState == Loaded
    {
      loadingState := NotLoaded;
      LoadMarketplace(setupOk, rpc, wallet, entries);
    }

    /**
     * `buyNft`: after a confirmed purchase the listings are reloaded (from the
     * given answers); a failed one is only reported. Returns the alert text.
     */
    method BuyNft(nft: Listing, purchase: Purchase, setupOk: bool, rpc: PathOutcome, wallet: PathOutcome, entries: map<string, string>)
      returns (alert: string)
      modifies this
      ensures purchase.Confirmed? ==>
        && alert == "Successfully purchased " + NameText(nft.name) + "!"
        && nfts == SelectListings(setupOk, rpc, wallet, entries) && loadingState == Loaded
      ensures purchase.PurchaseFailed? ==>
        && alert == "Purchase failed: " + purchase.error.message
        && nfts == old(nfts) && loadingState == old(loadingState)
    {
      if purchase.Confirmed? {
        alert := "Successfully purchased " + NameText(nft.name) + "!";
        LoadMarketplace(setupOk, rpc, wallet, entries);
      } else {
        alert := "Purchase failed: " + purchase.error.message;
      }
    }
  }
}
