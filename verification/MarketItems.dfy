/**
 * The per-item mapping shared by the marketplace and owned-items views
 * (src/components/Marketplace.jsx, Marketplace_new.jsx, Sender.jsx): an
 * on-chain market item plus the metadata document fetched for it becomes one
 * displayed listing.
 */
module MarketItems {
  import opened Wrappers
  import DecentralizedStorage
  import HederaHelpers
  import Seqs

  /** The largest integer a JavaScript number holds exactly; `BigNumber.toNumber` throws above it. */
  const MaxSafeInteger: nat := 9007199254740991

  /** A market item as the contract returns it. */
  datatype ChainItem = ChainItem(tokenId: nat, priceWei: nat)

  /** `metadata.properties`; an absent or falsy member is `""`. */
  datatype Properties = Properties(country: string, collectionPoint: string, weight: string)

  /**
   * The metadata document of a token. `image` and `imageUrl` are `""` when
   * absent or falsy; `name` and `description` are copied as they are, so an
   * absent one stays absent.
   */
  datatype Metadata = Metadata(
    image: string,
    imageUrl: string,
    name: Option<string>,
    description: Option<string>,
    properties: Option<Properties>)

  /** A displayed price: `formatUnits(wei, "ether")` of an on-chain price, or a literal text. */
  datatype Price = Formatted(wei: nat) | Literal(text: string)

  /** One card of the listing grid. */
  datatype Listing = Listing(
    price: Price,
    tokenId: nat,
    image: string,
    name: Option<string>,
    description: Option<string>,
    country: string,
    collectionPoint: string,
    weight: string)

  /** One item of a contract answer with the metadata fetched for it; `None` when `tokenURI` or the GET fails. */
  datatype ItemFetch = ItemFetch(item: ChainItem, metadata: Option<Metadata>)

  /** What one attempt (RPC or wallet) produced: the error it threw, or the items it returned. */
  datatype PathOutcome = Threw(error: HederaHelpers.JsError) | Returned(items: seq<ItemFetch>)

  /** `meta.image ? getIPFSGatewayURL(meta.image) : meta.imageUrl || ""`. */
  function ListingImage(meta: Metadata, entries: map<string, string>): (image: string)
    ensures meta.image == "" ==> image == meta.imageUrl
    ensures meta.image != "" ==> image == DecentralizedStorage.GatewayUrl(meta.image, entries)
  {
    if meta.image != "" then DecentralizedStorage.GatewayUrl(meta.image, entries) else meta.imageUrl
  }

  /** An `ipfs://` image goes through the raw-hash branch of the resolver, scheme included. */
  lemma IpfsImageThroughPinata(meta: Metadata, ref: string, entries: map<string, string>)
    requires meta.image == DecentralizedStorage.IpfsScheme + ref
    ensures ListingImage(meta, entries) == DecentralizedStorage.PinataGateway + (DecentralizedStorage.IpfsScheme + ref)
  {
    DecentralizedStorage.WrappedRefIsRaw(ref, entries);
  }

  /** `properties?.<member> || ""` for the three optional members. */
  function PropertyTexts(p: Option<Properties>): (texts: (string, string, string))
    ensures p.None? ==> texts == ("", "", "")
    ensures p.Some? ==> texts == (p.value.country, p.value.collectionPoint, p.value.weight)
  {
    if p.None? then ("", "", "") else (p.value.country, p.value.collectionPoint, p.value.weight)
  }

  /** The item mapping: `None` when the item's processing throws (failed fetch, or a token id `toNumber` rejects). */
  function ToListing(f: ItemFetch, entries: map<string, string>): (r: Option<Listing>)
    ensures r.Some? <==> f.metadata.Some? && f.item.tokenId <= MaxSafeInteger
    ensures r.Some? ==> r.value.tokenId == f.item.tokenId && r.value.price == Formatted(f.item.priceWei)
    ensures r.Some? ==> r.value.name == f.metadata.value.name && r.value.description == f.metadata.value.description
    ensures r.Some? ==> r.value.image == ListingImage(f.metadata.value, entries)
    ensures r.Some? ==> (r.value.country, r.value.collectionPoint, r.value.weight) == PropertyTexts(f.metadata.value.properties)
  {
    if f.metadata.None? || f.item.tokenId > MaxSafeInteger then None
    else
      var meta := f.metadata.value;
      var (country, collectionPoint, weight) := PropertyTexts(meta.properties);
      Some(Listing(Formatted(f.item.priceWei), f.item.tokenId, ListingImage(meta, entries),
                   meta.name, meta.description, country, collectionPoint, weight))
  }

  /** The marketplace's per-item `try`/`catch` then `filter(Boolean)`: a failing item is dropped, the rest keep their order. */
  function CollectValid(items: seq<ItemFetch>, entries: map<string, string>): (listings: seq<Listing>)
    ensures |listings| <= |items|
  {
    if items == [] then [] else Kept(items[0], entries) + CollectValid(items[1..], entries)
  }

  /** What one item contributes after `filter(Boolean)`: its listing, or nothing. */
  function Kept(f: ItemFetch, entries: map<string, string>): (kept: seq<Listing>)
    ensures |kept| <= 1
  {
    var l := ToListing(f, entries);
    if l.Some? then [l.value] else []
  }

  lemma {:induction false} CollectValidAppend(a: seq<ItemFetch>, b: seq<ItemFetch>, entries: map<string, string>)
    ensures CollectValid(a + b, entries) == CollectValid(a, entries) + CollectValid(b, entries)
  {
    if a == [] {
      assert a + b == b;
    } else {
      assert (a + b)[0] == a[0];
      assert (a + b)[1..] == a[1..] + b;
      CollectValidAppend(a[1..], b, entries);
      assert CollectValid(a + b, entries) == Kept(a[0], entries) + (CollectValid(a[1..], entries) + CollectValid(b, entries));
      assert CollectValid(a, entries) == Kept(a[0], entries) + CollectValid(a[1..], entries);
      Seqs.Regroup(Kept(a[0], entries), CollectValid(a[1..], entries), CollectValid(b, entries));
    }
  }

  /** Dropping one bad item: the items around it survive unchanged and in order. */
  lemma DropBadItem(before: seq<ItemFetch>, bad: ItemFetch, after: seq<ItemFetch>, entries: map<string, string>)
    requires ToListing(bad, entries).None?
    ensures CollectValid(before + [bad] + after, entries) == CollectValid(before, entries) + CollectValid(after, entries)
  {
    CollectValidAppend(before + [bad], after, entries);
    CollectValidAppend(before, [bad], entries);
  }

  /** Every surviving listing comes from an item of the answer, with that item's token id. */
  lemma {:induction false} CollectValidFromItems(items: seq<ItemFetch>, entries: map<string, string>, k: int)
    requires 0 <= k < |CollectValid(items, entries)|
    ensures exists i :: 0 <= i < |items| && ToListing(items[i], entries) == Some(CollectValid(items, entries)[k])
  {
    var head := ToListing(items[0], entries);
    var kept, rest := Kept(items[0], entries), CollectValid(items[1..], entries);
    assert CollectValid(items, entries) == kept + rest;
    assert kept == if head.Some? then [head.value] else [];
    if head.Some? && k == 0 {
      assert ToListing(items[0], entries) == Some(CollectValid(items, entries)[0]);
    } else {
      var k' := k - |kept|;
      assert CollectValid(items, entries)[k] == rest[k'];
      CollectValidFromItems(items[1..], entries, k');
      var i :| 0 <= i < |items[1..]| && ToListing(items[1..][i], entries) == Some(rest[k']);
      assert items[1..][i] == items[i + 1];
      assert ToListing(items[i + 1], entries) == Some(CollectValid(items, entries)[k]);
    }
  }

  /** A path yields nothing exactly when every one of its items fails. */
  lemma {:induction false} CollectValidEmptyIff(items: seq<ItemFetch>, entries: map<string, string>)
    ensures CollectValid(items, entries) == [] <==> forall i :: 0 <= i < |items| ==> ToListing(items[i], entries).None?
  {
    if items != [] {
      CollectValidEmptyIff(items[1..], entries);
      if forall i :: 0 <= i < |items| ==> ToListing(items[i], entries).None? {
        forall i | 0 <= i < |items[1..]|
          ensures ToListing(items[1..][i], entries).None?
        {
          assert items[1..][i] == items[i + 1];
        }
      } else if ToListing(items[0], entries).None? {
        var j :| 0 <= j < |items| && ToListing(items[j], entries).Some?;
        assert items[1..][j - 1] == items[j];
      }
    }
  }

  /** Every listing a contract answer yields carries an on-chain (formatted) price, never a literal one. */
  lemma CollectValidPricesFormatted(items: seq<ItemFetch>, entries: map<string, string>, k: int)
    requires 0 <= k < |CollectValid(items, entries)|
    ensures CollectValid(items, entries)[k].price.Formatted?
  {
    CollectValidFromItems(items, entries, k);
  }

  /** The owned-items mapping: `Promise.all` without a per-item `catch`, so one failure fails the whole answer. */
  function MapAll(items: seq<ItemFetch>, entries: map<string, string>): (r: Option<seq<Listing>>)
    ensures r.Some? ==> |r.value| == |items|
  {
    if items == [] then Some([])
    else
      var head := ToListing(items[0], entries);
      var tail := MapAll(items[1..], entries);
      if head.None? || tail.None? then None else Some([head.value] + tail.value)
  }

  /**
   * All-or-nothing against drop-the-bad-ones: the strict mapping succeeds
   * exactly when every item maps, and then it agrees with the lenient one.
   */
  lemma {:induction false} MapAllAgreesWithCollect(items: seq<ItemFetch>, entries: map<string, string>)
    ensures MapAll(items, entries).Some? <==> forall i :: 0 <= i < |items| ==> ToListing(items[i], entries).Some?
    ensures MapAll(items, entries).Some? ==> MapAll(items, entries).value == CollectValid(items, entries)
  {
    if items != [] {
      MapAllAgreesWithCollect(items[1..], entries);
      if forall i :: 0 <= i < |items| ==> ToListing(items[i], entries).Some? {
        assert forall i :: 0 <= i < |items[1..]| ==> ToListing(items[1..][i], entries).Some? by {
          forall i | 0 <= i < |items[1..]|
            ensures ToListing(items[1..][i], entries).Some?
          {
            assert items[1..][i] == items[i + 1];
          }
        }
      } else {
        var j :| 0 <= j < |items| && ToListing(items[j], entries).None?;
        if j > 0 {
          assert items[1..][j - 1] == items[j];
        }
      }
    }
  }

  /** The listing a path contributes: nothing when it threw, else its surviving items. */
  function PathListings(p: PathOutcome, entries: map<string, string>): (listings: seq<Listing>)
    ensures p.Threw? ==> listings == []
    ensures p.Returned? ==> listings == CollectValid(p.items, entries)
  {
    if p.Threw? then [] else CollectValid(p.items, entries)
  }

  /** A name as a template literal prints it: an absent one reads `undefined`. */
  function NameText(name: Option<string>): string {
    if name.Some? then name.value else "undefined"
  }

  /** The two render states of every listing view. */
  datatype LoadingState = NotLoaded | Loaded
}
