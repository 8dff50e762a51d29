# GreenChain front-end: content references, listing loads and the mint form

GreenChain is a browser front-end for a Hedera testnet marketplace. Its items are collected waste registered as NFTs. The network, wallet and rendering layers sit on top of a small deterministic core. This project models that core in Dafny and proves what it promises:

- **Content references and the local store** (`DecentralizedStorage`).
  - A reference names the backend that holds the content:
    - `jsonbin_<id>` for a JSONBin bin;
    - `gist_<id>` for a GitHub Gist;
    - `blob_<key>` for the browser's `localStorage`;
    - anything else for a raw IPFS hash.
  - The resolver turns a reference into a URL. The gateway expansion lists one URL per public IPFS gateway.
  - The upload chain tries JSONBin, then Gist, then the local store. Files of 1 MiB and more go straight to the local store.
  - `localStorage` is a `LocalStore` object whose string map the upload methods update in place.
  - `loadFromLocalStorage` builds a `data:` URL in the `data:[<mediatype>][;base64],<data>` form of section 2 of RFC 2397.
- **JSON** (`Json`).
  - `JSON.stringify` and `JSON.parse` are modelled on flat objects whose members are strings or non-negative integers.
  - The codec is proved to round-trip. The resolver's `blob_` branch and the stored `meta_` records rely on it.
- **Hedera helpers** (`HederaHelpers`).
  - `handleHederaError` is an ordered substring classifier.
  - Mirror-node contract results are filtered for `createToken` calls and token ids are read from their last 64 hex digits.
  - Other parts: the contract-id rewrite, the activity filter, and the decision part of the comprehensive contract check.
- **Listing views** (`MarketItems`, `Marketplace`, `MarketplaceNew`, `Sender`).
  - The two marketplace pages read over RPC first and through the wallet second. A bad item is dropped on its own.
  - One marketplace page falls back to nothing, the other to three sample listings.
  - The owned-items page reads through the wallet first and RPC second. Its mapping is all-or-nothing.
  - Each page is a class holding its `nfts` and `loadingState`.
- **Mint form** (`MintProfile`).
  - Validation runs in a fixed order.
  - One leading `ipfs://` is stripped from the token URI.
  - The preview is refused without a transaction hash.
  - The form is a class holding the page's state cells.

Network, wallet, clock and randomness outcomes are parameters:
- `RemoteOutcome`: a paste store accepted the upload with an id, or rejected it.
- `LocalUpload`: the object URL (or none), the two `Date.now()` readings and the random suffix.
- `PathOutcome`: a contract read threw, or returned items, each with its fetched metadata or none.
- `Purchase` and `TxOutcome`: what a wallet transaction came to.
- `Probes`: the answers the contract diagnostics receive.

## Model

| member | source | states |
|---|---|---|
| DecentralizedStorage.ParseRef | src/utils/decentralizedStorage.js:25-54 | the reference is empty exactly for `""`; the prefixes are tested in the order `jsonbin_`, `gist_`, `blob_`, each case is the tag plus the rest, and a raw hash carries none of the three tags |
| DecentralizedStorage.ParseRefText | src/utils/decentralizedStorage.js:29-42 | removing the tag (`replace` of its first occurrence) loses nothing: putting the tag back gives the original string |
| DecentralizedStorage.RefTextParse | src/utils/decentralizedStorage.js:29-42 | every tagged reference and every well-formed raw hash is read back as itself |
| DecentralizedStorage.GatewayUrl | src/utils/decentralizedStorage.js:25-63 | an empty reference resolves to `""`; a non-empty reference that starts with none of `jsonbin_`, `gist_` and `blob_` resolves to the Pinata gateway URL followed by the reference itself |
| DecentralizedStorage.StoredBlobUrl | src/utils/decentralizedStorage.js:41-53 | the `blob_` branch gives `""` when the key is missing or empty, when the stored text does not parse, and when the object has no `url`; a string `url` is returned as it is |
| DecentralizedStorage.ResolverReadsOneKey | src/utils/decentralizedStorage.js:40-54 | the resolver depends on the store only through the key of a `blob_` reference; for any other reference the store is irrelevant, and it never changes the store |
| DecentralizedStorage.JsonBinRefResolves | src/utils/decentralizedStorage.js:29-32 | `jsonbin_X` resolves to `https://api.jsonbin.io/v3/b/X/latest` |
| DecentralizedStorage.GistRefResolves | src/utils/decentralizedStorage.js:35-38 | `gist_X` resolves to `https://gist.githubusercontent.com/anonymous/X/raw` |
| DecentralizedStorage.BlobRefResolves | src/utils/decentralizedStorage.js:41-47 | `blob_K` resolves to the `url` member of the JSON object stored under `K` |
| DecentralizedStorage.MissingBlobResolvesEmpty | src/utils/decentralizedStorage.js:43-53 | `blob_K` with no entry under `K` resolves to `""` |
| DecentralizedStorage.UnreadableBlobResolvesEmpty | src/utils/decentralizedStorage.js:44-51 | `blob_K` whose stored text does not parse, or parses to an object without `url`, resolves to `""` |
| DecentralizedStorage.MetaRecordResolvesEmpty | src/utils/decentralizedStorage.js:44-47 | `blob_K` where `K` holds a metadata record an upload wrote resolves to `""`, since that record has no `url` |
| DecentralizedStorage.WrappedRefIsRaw | src/utils/decentralizedStorage.js:56-63 | a reference wrapped as `ipfs://R` always takes the raw-hash branch and gives the Pinata gateway + `ipfs://R`, the scheme not stripped |
| DecentralizedStorage.ResolverDiffersFromFirstGateway | src/utils/decentralizedStorage.js:8-13 | for a raw hash, the resolver's URL (Pinata) differs from the first URL of the gateway expansion (ipfs.io) |
| DecentralizedStorage.ContentId | src/utils/decentralizedStorage.js:74-80 | after removing one leading `ipfs://`, the identifier is the longest prefix without a `/`: it has no `/` and is followed by `/` or the end of the text |
| DecentralizedStorage.GatewayUrls | src/utils/decentralizedStorage.js:71-83 | `""` gives `[]`; otherwise exactly four URLs, gateway `i` followed by the identifier, in gateway order |
| DecentralizedStorage.GatewayUrlsIgnoreSchemeAndPath | src/utils/decentralizedStorage.js:74-82 | `ipfs://C/path` and `C` expand to the same URLs |
| DecentralizedStorage.LocalStore.SetItem | src/utils/decentralizedStorage.js:123-124 | the store's map gains or overwrites exactly that key |
| DecentralizedStorage.MetaRecord | src/utils/decentralizedStorage.js:124-130 | the stored record's `type` reads back as the file's type and it has no `url` member |
| DecentralizedStorage.LocalUploadResult | src/utils/decentralizedStorage.js:115-149 | the store only gains keys; it always gains `meta_` + the returned id; with an object URL the id starts `blob_` and `blob_` + id is written, and without one the id starts `fallback_` |
| DecentralizedStorage.UploadToWeb3Storage | src/utils/decentralizedStorage.js:115-149 | the new store and returned id are those of `LocalUploadResult`: on success `blob_` + id and `meta_` + id are written, and on a failed object URL a `fallback_` id is returned with only its `meta_` entry written |
| DecentralizedStorage.LocalUploadWrites | src/utils/decentralizedStorage.js:118-133 | a successful local upload returns an id starting `blob_`, adds exactly the keys `blob_`+id and `meta_`+id, stores the object URL under the first and a record that parses back to the file's metadata under the second, and leaves every other key unchanged |
| DecentralizedStorage.FallbackUploadWrites | src/utils/decentralizedStorage.js:134-147 | without an object URL the id starts `fallback_`, only `meta_`+id is added, with the second clock reading as timestamp, and nothing else changes |
| DecentralizedStorage.UploadedBlobIdNotResolved | src/utils/decentralizedStorage.js:41-43 | resolving a freshly uploaded id looks up the id minus its first `blob_`, a key the upload never wrote: the answer is the same as before the upload, and `""` when that key was absent |
| DecentralizedStorage.ChooseBackend | src/utils/decentralizedStorage.js:156-226 | files of 1048576 bytes or more always go local; JSONBin is used exactly when the file is small and JSONBin accepted; Gist exactly when the file is small, JSONBin rejected and Gist accepted |
| DecentralizedStorage.IpfsUploadResult | src/utils/decentralizedStorage.js:156-238 | the store only gains keys; a remote upload leaves it unchanged; a local one adds `meta_` + the returned reference |
| DecentralizedStorage.UploadToIpfs | src/utils/decentralizedStorage.js:156-238 | the new store and returned reference are those of `IpfsUploadResult`: `jsonbin_`+id, else `gist_`+id, else the local upload |
| DecentralizedStorage.LargeFileStaysLocal | src/utils/decentralizedStorage.js:156-226 | for a file of at least 1 MiB the result is the local upload, whatever the remote stores would answer |
| DecentralizedStorage.UploadedRefResolves | src/utils/decentralizedStorage.js:156-223 | a remote upload leaves the store unchanged and its reference resolves to the bin's or gist's endpoint; a local upload is `LocalUploadResult`, its `blob_` id reads as a `blob_` reference, and its `fallback_` id resolves through the Pinata gateway |
| DecentralizedStorage.FallbackRefResolves | src/utils/decentralizedStorage.js:56-63 | the `fallback_` id of a local upload carries no backend tag, so it resolves to the Pinata gateway URL followed by the id |
| DecentralizedStorage.UploadMetadata | src/utils/decentralizedStorage.js:246-272 | the metadata document is uploaded as a nameless JSON blob; `url` is `ipfs://` + its reference, `gateway` is the Pinata URL of that `url`, and `image` is `ipfs://` + the image reference |
| DecentralizedStorage.UploadNftContent | src/utils/decentralizedStorage.js:300-357 | `imageHash` is the image upload's reference; the metadata upload runs on the store the image upload left, and the final store is the one it leaves; `url` is `ipfs://` + the metadata upload's reference; `imageUrl` and `gateway` are the Pinata URLs of `ipfs://` + the image reference and of `url` |
| DecentralizedStorage.MimeTypeOf | src/utils/decentralizedStorage.js:288 | never empty: the record's `type` when it is a non-empty string, `application/octet-stream` when it is absent or empty |
| DecentralizedStorage.LoadFromLocalStorage | src/utils/decentralizedStorage.js:279-293 | fails as unreadable exactly when a stored `meta_` record does not parse; fails as not found exactly when the record is readable and `file_`+id is absent or empty; otherwise `data:` + the record's media type (the default when no record is stored) + `;base64,` + the stored data |
| DecentralizedStorage.LoadWithoutMetadata | src/utils/decentralizedStorage.js:282-288 | with no `meta_` entry the media type is `application/octet-stream` |
| DecentralizedStorage.LoadUsesUploadedType | src/utils/decentralizedStorage.js:279-293 | with the record an upload writes, the data URL carries the file's type, or the default for an untyped file |
| DecentralizedStorage.UploadedFileNotLoadable | src/utils/decentralizedStorage.js:279-293 | the uploads never write a `file_` key, so an id just uploaded into a store without one cannot be loaded back |
| Json.Lookup | src/utils/decentralizedStorage.js:46-47 | a member read from a parsed object is a member of it with no later member of the same key (last one wins); absent means no member has the key |
| Json.Stringify | src/utils/decentralizedStorage.js:124-130 | the text is delimited by `{` and `}` |
| Json.Parse | src/utils/decentralizedStorage.js:46 | only a text whose first non-blank character is `{` can parse; a blank text never does |
| Json.RoundTrip | src/utils/decentralizedStorage.js:124-130 | parsing what stringifying an object produced gives the object back |
| HederaHelpers.ErrorText | src/utils/hederaHelpers.js:186 | the error's message when it has one, otherwise its `toString()` |
| HederaHelpers.CategoryOf | src/utils/hederaHelpers.js:189-236 | each category as an if-and-only-if on the patterns, tested in order: indexing delay (revert and `data="0x"`), then gas (`transaction underpriced`), then funds (`insufficient funds`), then network (`network not supported` or `chain`); generic exactly when none matches |
| HederaHelpers.CategoryInfo | src/utils/hederaHelpers.js:190-235 | retry hints per category: indexing delay retries after 30000 with an alternative approach; gas after 5000; funds and network never; generic after 10000 with the raw text as message; a delay is present exactly when a retry is advised |
| HederaHelpers.HandleError | src/utils/hederaHelpers.js:185-237 | in terms of the error's text, in the source's order: both revert phrases give the indexing-delay record; otherwise `transaction underpriced` the gas record; otherwise `insufficient funds` the HBAR record; otherwise `network not supported` or `chain` the network record; otherwise the generic `Contract Error` record, carrying the text itself, the source's suggestion and alternative, and a retry after 10000 |
| HederaHelpers.IndexingDelayDetected | src/utils/hederaHelpers.js:189 | both phrases anywhere in the text make it an indexing delay |
| HederaHelpers.IndexingDelayWinsOverLaterPatterns | src/utils/hederaHelpers.js:189-226 | the first test wins, whatever else the text mentions |
| HederaHelpers.ChainMentionNeverGeneric | src/utils/hederaHelpers.js:219 | any occurrence of `chain` keeps the error out of the generic category |
| HederaHelpers.RevertWithoutEmptyDataIsGeneric | src/utils/hederaHelpers.js:185-237 | the revert phrase without `data="0x"` (and no other pattern) is generic and shows the raw text |
| HederaHelpers.HexPrefix | src/utils/hederaHelpers.js:86 | the longest prefix of hexadecimal digits |
| HederaHelpers.ParseIntHex | src/utils/hederaHelpers.js:86 | NaN exactly when the text does not start with a hex digit |
| HederaHelpers.TokenIdOf | src/utils/hederaHelpers.js:83-89 | a call result yields an id exactly when it has at least 66 characters |
| HederaHelpers.IsTokenCreation | src/utils/hederaHelpers.js:71-77 | a transaction the filter keeps has a call result that is neither empty nor `0x` |
| HederaHelpers.ContractNfts | src/utils/hederaHelpers.js:66-92 | never more ids than kept transactions, never more kept than given |
| HederaHelpers.ExtractIdsAllLong | src/utils/hederaHelpers.js:82-90 | when every kept result is long enough there is one id per kept transaction |
| HederaHelpers.ContractNftsAppend | src/utils/hederaHelpers.js:71-90 | the filter-and-extract pipeline distributes over concatenation, so ids come out in transaction order |
| HederaHelpers.NonCreationIgnored | src/utils/hederaHelpers.js:71-77 | a transaction without a non-trivial result, a null error, or the `72b3b620` selector contributes nothing |
| HederaHelpers.CreationYieldsId | src/utils/hederaHelpers.js:71-92 | a successful `createToken` call contributes exactly the id its call result yields |
| HederaHelpers.MintedTokenListed | src/utils/hederaHelpers.js:66-92 | a successful `createToken` call whose result word ends in the 64-digit hex of `n` is reported as token `n` |
| HederaHelpers.CreatedTokenRecovered | src/utils/hederaHelpers.js:83-87 | a result word `0x` + the 64-digit hex of `n` yields `n` |
| HederaHelpers.NonHexWordYieldsNaN | src/utils/hederaHelpers.js:85-90 | a long result whose last 64 characters start with a non-hex character yields NaN, which the `!== null` filter keeps |
| HederaHelpers.ContractIdFor | src/utils/hederaHelpers.js:49-53 | a `0x` address becomes `0.0.6519500`; anything else is unchanged |
| HederaHelpers.ContractIdForIdempotent | src/utils/hederaHelpers.js:49-53 | the rewrite never yields a `0x` address, so applying it twice changes nothing |
| HederaHelpers.LatestActivity | src/utils/hederaHelpers.js:100-114 | without a name (or with an empty one) all results; with a name, exactly the results whose parameters contain it |
| HederaHelpers.LatestActivityAppend | src/utils/hederaHelpers.js:104-107 | the filter keeps the results' order |
| HederaHelpers.LatestActivityAllMatch | src/utils/hederaHelpers.js:104-107 | filtering results that all match changes nothing |
| HederaHelpers.Recommendation | src/utils/hederaHelpers.js:167-173 | `rpc` exactly when the call worked; `wallet-with-mirror-fallback` exactly when it did not but the mirror node confirmed; `retry-later` exactly when neither |
| HederaHelpers.VerifyContract | src/utils/hederaHelpers.js:120-180 | `rpcWorking` and `canCallFunctions` both equal the call's success; `mirrorNodeConfirmed` iff the mirror node returned a non-deleted contract; `contractExists` iff the bytecode is not `0x` or the mirror node confirmed; the recommendation is never `unknown` or `wallet` |
| MarketItems.ListingImage | src/components/Marketplace.jsx:41 | a truthy `image` is resolved; otherwise `imageUrl`, which is `""` when absent |
| MarketItems.IpfsImageThroughPinata | src/components/Marketplace.jsx:41 | an `ipfs://R` image is shown through the Pinata gateway with the scheme kept |
| MarketItems.PropertyTexts | src/components/Marketplace.jsx:44-46 | without `properties`, country, collection point and weight are `""`; with them, the three members |
| MarketItems.ToListing | src/components/Marketplace.jsx:32-51 | an item maps exactly when its metadata was fetched and its token id fits `toNumber`; the listing keeps the item's token id and price, the metadata's name and description, the resolved image, and the three property texts |
| MarketItems.CollectValid | src/components/Marketplace.jsx:31-54 | never more listings than items |
| MarketItems.CollectValidAppend | src/components/Marketplace.jsx:31-54 | per-item mapping with `filter(Boolean)` distributes over concatenation |
| MarketItems.DropBadItem | src/components/Marketplace.jsx:48-54 | a failing item is dropped and the items around it survive in order |
| MarketItems.CollectValidFromItems | src/components/Marketplace.jsx:31-54 | every surviving listing is the mapping of some item of the answer |
| MarketItems.CollectValidEmptyIff | src/components/Marketplace.jsx:54-55 | an answer yields no listing exactly when every one of its items fails |
| MarketItems.CollectValidPricesFormatted | src/components/Marketplace.jsx:36-40 | every listing from a contract answer carries an on-chain price |
| MarketItems.MapAll | src/components/Sender.jsx:128-148 | the strict mapping, when it succeeds, has one listing per record |
| MarketItems.MapAllAgreesWithCollect | src/components/Sender.jsx:128-155 | the strict mapping succeeds exactly when every item maps, and then equals the lenient mapping |
| MarketItems.PathListings | src/components/Marketplace.jsx:27-63 | an attempt that threw contributes nothing; one that returned contributes its surviving items |
| Marketplace.RpcPreferred | src/components/Marketplace.jsx:28-59 | a non-empty RPC result is final, whatever the wallet would answer |
| Marketplace.SelectListings | src/components/Marketplace.jsx:21-118 | nothing when setup threw; the RPC listings when there are any; in every case either nothing, the RPC listings or the wallet listings |
| Marketplace.FailedRpcItemsFallBackToWallet | src/components/Marketplace.jsx:54-108 | when every RPC item fails, the wallet attempt decides |
| Marketplace.EmptyMarketplace | src/components/Marketplace.jsx:110-116 | the marketplace is empty exactly when setup threw or both attempts yielded nothing |
| Marketplace.ListingsAreReal | src/components/Marketplace.jsx:38-47 | every listing shown carries an on-chain price |
| Marketplace.MarketplaceView.constructor | src/components/Marketplace.jsx:13-14 | no listings, not loaded |
| Marketplace.MarketplaceView.LoadMarketplace | src/components/Marketplace.jsx:21-118 | the listings become `SelectListings` of the answers and the state ends loaded; the empty view shows exactly when setup threw or neither attempt yielded a listing |
| Marketplace.MarketplaceView.Refresh | src/components/Marketplace.jsx:199-202 | back to not-loaded, then the load's result |
| Marketplace.MarketplaceView.BuyNft | src/components/Marketplace.jsx:121-141 | a confirmed purchase announces success and reloads; a failed one announces the error and changes nothing |
| MarketplaceNew.SampleShape | src/components/Marketplace_new.jsx:128-159 | three samples, token ids 1, 2, 3, prices "0.1", "0.05", "0.15" |
| MarketplaceNew.SelectWithSamples | src/components/Marketplace_new.jsx:22-169 | nothing when setup threw; otherwise the RPC listings, the wallet listings or the samples |
| MarketplaceNew.RpcPreferred | src/components/Marketplace_new.jsx:35-69 | a non-empty RPC result is final, whatever the wallet would answer |
| MarketplaceNew.SamplesOnlyWhenNothingReal | src/components/Marketplace_new.jsx:124-162 | the samples are shown exactly when setup worked and neither attempt yielded a listing |
| MarketplaceNew.EmptyOnlyWhenSetupFails | src/components/Marketplace_new.jsx:164-168 | the list is empty exactly when setup threw |
| MarketplaceNew.MarketplaceNewView.constructor | src/components/Marketplace_new.jsx:13-14 | no listings, not loaded |
| MarketplaceNew.MarketplaceNewView.LoadMarketplace | src/components/Marketplace_new.jsx:22-169 | the listings become `SelectWithSamples` of the answers and the state ends loaded; the empty view shows exactly when setup threw |
| MarketplaceNew.MarketplaceNewView.Refresh | src/components/Marketplace_new.jsx:183-186 | back to not-loaded, then the load's result |
| MarketplaceNew.MarketplaceNewView.BuyClicked | src/components/Marketplace_new.jsx:230-234 | only the "coming soon" announcement; no state changes and no contract call is made |
| Sender.WalletFirst | src/components/Sender.jsx:34-42 | with a connected wallet the RPC answer is never consulted |
| Sender.OwnedItems | src/components/Sender.jsx:26-156 | a non-empty result comes from the chosen attempt (wallet when connected, else RPC), which returned, and it has one listing per record, equal to the lenient mapping |
| Sender.RpcWhenNoWallet | src/components/Sender.jsx:43-48 | without a wallet the RPC answer decides |
| Sender.NothingReadIsEmpty | src/components/Sender.jsx:69-121 | a read that throws, or returns no records, ends with the empty list |
| Sender.AllOrNothing | src/components/Sender.jsx:128-155 | one item that fails empties the whole view |
| Sender.OnePerRecord | src/components/Sender.jsx:128-150 | when every item maps, one listing per record in the contract's order |
| Sender.SenderView.constructor | src/components/Sender.jsx:16-17 | no listings, not loaded |
| Sender.SenderView.LoadWaste | src/components/Sender.jsx:26-156 | whatever the bytecode check and diagnostics answer, the listings become `OwnedItems` and the state ends loaded |
| Sender.SenderView.Refresh | src/components/Sender.jsx:168-170 | back to not-loaded, then the load's result |
| MintProfile.Validate | src/components/MintProfile.jsx:112-129 | missing fields exactly when a field is empty; missing file exactly when all fields are filled and there is no file; invalid price exactly when the fields and file are there and the price is not positive |
| MintProfile.InitialFormRefused | src/components/MintProfile.jsx:112-117 | the untouched form is refused for its empty fields |
| MintProfile.StripIpfsScheme | src/components/MintProfile.jsx:51-54 | with a leading `ipfs://`, the scheme plus the result is the input; otherwise the input is unchanged |
| MintProfile.NormalizeTokenUri | src/components/MintProfile.jsx:51-54 | the reassigned `tokenURI` is the stripped metadata URL |
| MintProfile.StripUndoesWrap | src/components/MintProfile.jsx:51-54 | stripping undoes the `ipfs://` wrapping of an uploaded reference, removing exactly 7 characters |
| MintProfile.MintedJsonBinUriResolves | src/components/MintProfile.jsx:51-54 | a token minted from a JSONBin-hosted document carries a URI that resolves to that bin |
| MintProfile.MintForm.constructor | src/components/MintProfile.jsx:15-21 | no error, no file, result cells undefined, the form at its initial value |
| MintProfile.MintForm.UpdateFormInput | src/components/MintProfile.jsx:21 | only the form changes |
| MintProfile.MintForm.HandleFileUpload | src/components/MintProfile.jsx:23-30 | the file is kept and the status, image, metadata and transaction cells are cleared to `""` |
| MintProfile.MintForm.SendTxToBlockchain | src/components/MintProfile.jsx:32-82 | the status announces the submission; the token URI is the stripped metadata URL; a failure records `Failed to send tx to Hedera Testnet: ` + its message |
| MintProfile.MintForm.PreviewNft | src/components/MintProfile.jsx:84-103 | with no hash only the error is set; otherwise the image is `imageUrl` or the resolved `url`, the metadata link is `gateway` or the resolved `url`, the transaction link is the explorer URL + `/transaction/` + hash, and the status reports success |
| MintProfile.MintForm.MintNftToken | src/components/MintProfile.jsx:105-162 | a failed check sets its message, uploads nothing and mints nothing; otherwise the store is the one the image upload then the metadata upload leave, and the token URI is the metadata reference without `ipfs://`; a mined transaction with a hash clears the error and shows the explorer link, the Pinata URL of the image and the Pinata URL of `ipfs://` + the metadata reference; a missing hash reports it; a failure reports `Minting failed: ` + its message or `Unknown error occurred`; in both of these the image, metadata and explorer links keep their old values |

## Left out

- Network and wallet calls are not modelled; their answers are parameters. This covers `fetch` to JSONBin and Gist, `axios`, ethers providers and contracts, Web3Modal and the mirror node.
- `FileReader` and base64 encoding (`fileToBase64`) are not modelled: the uploaded bytes never appear in the model.
- `URL.createObjectURL`, `Date.now` and `Math.random` are parameters (`LocalUpload`). The random suffix is any string.
- The size of the serialised metadata document is a parameter (`documentSize`). The document's other members (attributes, external URL, colour) are not modelled.
- `formatUnits` and `parseUnits` are a library the model cannot see: on-chain prices stay in wei (`Formatted`). `parseFloat` on the form's price is the abstract flag `priceIsPositive`.
- `localStorage.setItem` never fails here. As a result the outer `catch` and its second local attempt in `uploadToIPFS`, and the rethrow in `uploadNFTContent`, are unreachable and not modelled.
- DecentralizedStorage.GatewayUrl: JSON documents outside the modelled subset read as unparsable. These are nested values, fractions, numbers with an exponent such as `1e3`, negative numbers, `true`/`false`/`null` and `\u` escapes of surrogate code units (`\uD800` to `\uDFFF`). So a stored `blob_` record whose `url` is such a value resolves to `""` here. The same holds for a non-object `meta_` entry in `LoadFromLocalStorage`, where JavaScript would not throw.
- MarketItems.Metadata: metadata members are strings. A non-string `image`, `imageUrl` or property is not modelled. An absent member is `""`, which JavaScript's `||` treats the same way.
- The token-URI request is not modelled: the metadata GET is one per-item answer. An item's answer covers `tokenURI`, resolving it and the GET together.
- HederaHelpers.ParseIntHex: the leading whitespace, sign and `0x` prefix that `parseInt` would also skip are not modelled. The result is an exact natural, while JavaScript's number loses precision above 2^53.
- HederaHelpers.ErrorText: an absent `message` and an empty one are both `""`. In the purchase and transaction alerts, an absent message therefore reads as empty, where JavaScript would print `undefined`.
- `getContractInfo`, `getContractCallResults`, `getContractTransactions` and `isContractActive` are the HTTP requests themselves. Only the contract-id rewrite and the filtering of the answers are modelled.
- MintProfile.MintForm.MintNftToken: a failed transaction is one outcome, wherever it failed. The model does not tell a wallet connection that fails before `createToken` from a `createToken` that fails, so the returned token URI is the one computed for the call.
- Rendering, `alert`, console logging and the `setTimeout` navigation after a mint are not modelled. The alert texts are returned as strings.
- Concurrency is not modelled. `Promise.all` is a sequential map, `buyNft`'s un-awaited reload is a plain call, and the race between overlapping reloads is not modelled.
- `src/utils/hederaSDK.js`, `src/utils/hederaSDKTest.js`, `src/utils/addHederaNetwork.js`, `scripts/*.js`, `vite.config.js` and the page wrappers are not part of this model. From `config.js` only `EXPLORER_URL` is used.
