/**
 * The second marketplace view (src/components/Marketplace_new.jsx): the same
 * RPC-then-wallet order, but when neither yields a listing it shows three fixed
 * sample listings, and its buy button only announces that buying is not
 * available yet.
 */
module MarketplaceNew {
  import opened Wrappers
  import opened MarketItems

  /** The three sample listings, in the order the view shows them. */
  const SampleListings: seq<Listing> := [
    Listing(Literal("0.1"), 1,
      "https://via.placeholder.com/400x300/22c55e/ffffff?text=Plastic+Waste+NFT",
      Some("Plastic Waste NFT"), Some("Recyclable plastic waste - ready for purchase"),
      "Demo Country", "Demo Collection Point", "2.5"),
    Listing(Literal("0.05"), 2,
      "https://via.placeholder.com/400x300/3b82f6/ffffff?text=Glass+Waste+NFT",
      Some("Glass Waste NFT"), Some("Glass bottles for recycling - eco-friendly option"),
      "Sample Location", "Sample Collection Point", "1.8"),
    Listing(Literal("0.15"), 3,
      "https://via.placeholder.com/400x300/f59e0b/ffffff?text=Metal+Waste+NFT",
      Some("Metal Waste NFT"), Some("Aluminum cans and metal scraps for recycling"),
      "Test Region", "Test Location", "3.2")
  ]

  /** The listings this `loadMarketplace` ends with: RPC, then wallet, then the samples. */
  function SelectWithSamples(setupOk: bool, rpc: PathOutcome, wallet: PathOutcome, entries: map<string, string>): (nfts: seq<Listing>)
    ensures !setupOk ==> nfts == []
    ensures setupOk ==> nfts == PathListings(rpc, entries) || nfts == PathListings(wallet, entries) || nfts == SampleListings
  {
    if !setupOk then []
    else if PathListings(rpc, entries) != [] then PathListings(rpc, entries)
    else if PathListings(wallet, entries) != [] then PathListings(wallet, entries)
    else SampleListings
  }

  /** The samples are token ids 1, 2, 3 priced "0.1", "0.05" and "0.15". */
  lemma SampleShape()
    ensures |SampleListings| == 3
    ensures forall k :: 0 <= k < 3 ==> SampleListings[k].tokenId == k + 1
    ensures [SampleListings[0].price, SampleListings[1].price, SampleListings[2].price]
            == [Literal("0.1"), Literal("0.05"), Literal("0.15")]
  {
  }

  /** A non-empty RPC result is final, as in the first marketplace. */
  lemma RpcPreferred(rpc: PathOutcome, wallet1: PathOutcome, wallet2: PathOutcome, entries: map<string, string>)
    requires PathListings(rpc, entries) != []
    ensures SelectWithSamples(true, rpc, wallet1, entries) == SelectWithSamples(true, rpc, wallet2, entries) == PathListings(rpc, entries)
  {
  }

  /** The samples are shown exactly when setup worked and neither attempt yielded a listing: they never mask real data. */
  lemma SamplesOnlyWhenNothingReal(setupOk: bool, rpc: PathOutcome, wallet: PathOutcome, entries: map<string, string>)
    ensures SelectWithSamples(setupOk, rpc, wallet, entries) == SampleListings
            <==> setupOk && PathListings(rpc, entries) == [] && PathListings(wallet, entries) == []
  {
    var nfts := SelectWithSamples(setupOk, rpc, wallet, entries);
    if setupOk && PathListings(rpc, entries) != [] {
      CollectValidPricesFormatted(rpc.items, entries, 0);
      assert nfts[0].price != SampleListings[0].price;
    } else if setupOk && PathListings(wallet, entries) != [] {
      CollectValidPricesFormatted(wallet.items, entries, 0);
      assert nfts[0].price != SampleListings[0].price;
    }
  }

  /** With the sample fallback, the list is empty only when setup itself threw. */
  lemma EmptyOnlyWhenSetupFails(setupOk: bool, rpc: PathOutcome, wallet: PathOutcome, entries: map<string, string>)
    ensures SelectWithSamples(setupOk, rpc, wallet, entries) == [] <==> !setupOk
  {
  }

  /** The `nfts` and `loadingState` state of this marketplace page. */
  class MarketplaceNewView {
    var nfts: seq<Listing>
    var loadingState: LoadingState

    constructor ()
      ensures nfts == [] && loadingState == NotLoaded
    {
      nfts := [];
      loadingState := NotLoaded;
    }

    /** The "No items available" panel, with its refresh button. */
    predicate ShowsEmptyView()
      reads this
    {
      loadingState == Loaded && nfts == []
    }

    /** `loadMarketplace` with the sample fallback; every exit sets the state to loaded. */
    method LoadMarketplace(setupOk: bool, rpc: PathOutcome, wallet: PathOutcome, entries: map<string, string>)
      modifies this
      ensures nfts == SelectWithSamples(setupOk, rpc, wallet, entries)
      ensures loadingState == Loaded
      ensures ShowsEmptyView() <==> !setupOk
    {
      if !setupOk {
        nfts := [];
        loadingState := Loaded;
        return;
      }
      if rpc.Returned? && |rpc.items| > 0 {
        var validItems := CollectValid(rpc.items, entries);
        if |validItems| > 0 {
          nfts := validItems;
          loadingState := Loaded;
          return;
        }
      }
      if wallet.Returned? && |wallet.items| > 0 {
        var validItems := CollectValid(wallet.items, entries);
        if |validItems| > 0 {
          nfts := validItems;
          loadingState := Loaded;
          return;
        }
      }
      nfts := SampleListings;
      loadingState := Loaded;
    }

    /** The refresh button: back to not-loaded, then load again. */
    method Refresh(setupOk: bool, rpc: PathOutcome, wallet: PathOutcome, entries: map<string, string>)
      modifies this
      ensures nfts == SelectWithSamples(setupOk, rpc, wallet, entries)
      ensures loadingState == Loaded
    {
      loadingState := NotLoaded;
      LoadMarketplace(setupOk, rpc, wallet, entries);
    }

    /** The buy button: an announcement only; it changes no state and makes no contract call. */
    method BuyClicked(nft: Listing) returns (alert: string)
      ensures alert == "Purchase function for " + NameText(nft.name) + " coming soon!"
    {
      alert := "Purchase function for " + NameText(nft.name) + " coming soon!";
    }
  }
}
