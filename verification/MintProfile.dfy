/**
 * The waste registration form (src/components/MintProfile.jsx): validate the
 * form, upload the file and its metadata, mint the token with the metadata's
 * reference as token URI, and show a preview of the result.
 */
module MintProfile {
  import opened Wrappers
  import opened Strings
  import DecentralizedStorage
  import HederaHelpers

  /** `EXPLORER_URL` of the configuration (Hedera testnet explorer). */
  const ExplorerUrl: string := "https://hashscan.io/testnet"

  const SubmittingStatus: string := "Adding transaction to Hedera Testnet Blockchain."
  const SuccessStatus: string := "Waste registration was successful!"
  const NoHashMessage: string := "Transaction failed - no hash received"

  /** The six text fields of the form. */
  datatype FormInput = FormInput(
    name: string,
    description: string,
    country: string,
    weight: string,
    collectionPoint: string,
    price: string)

  /** The form as the page first shows it: only the category is filled in. */
  const InitialForm: FormInput := FormInput("plastic", "", "", "", "", "")

  predicate AllFieldsFilled(f: FormInput) {
    f.name != "" && f.description != "" && f.country != "" && f.weight != "" && f.collectionPoint != "" && f.price != ""
  }

  datatype ValidationError = MissingFields | MissingFile | InvalidPrice

  function ValidationMessage(e: ValidationError): string {
    match e
    case MissingFields => "Please fill in all required fields"
    case MissingFile => "Please select a file to upload"
    case InvalidPrice => "Please enter a valid price greater than 0"
  }

  /**
   * The checks of `mintNFTToken`, in order: fields, then file, then price.
   * `priceIsPositive` stands for `parseFloat(price)` being a number above 0.
   */
  function Validate(form: FormInput, hasFile: bool, priceIsPositive: bool): (r: Option<ValidationError>)
    ensures r == Some(MissingFields) <==> !AllFieldsFilled(form)
    ensures r == Some(MissingFile) <==> AllFieldsFilled(form) && !hasFile
    ensures r == Some(InvalidPrice) <==> AllFieldsFilled(form) && hasFile && !priceIsPositive
    ensures r.None? <==> AllFieldsFilled(form) && hasFile && priceIsPositive
  {
    if !AllFieldsFilled(form) then Some(MissingFields)
    else if !hasFile then Some(MissingFile)
    else if !priceIsPositive then Some(InvalidPrice)
    else None
  }

  /** The untouched form is refused for its empty fields, before the file or the price is looked at. */
  lemma InitialFormRefused(hasFile: bool, priceIsPositive: bool)
    ensures Validate(InitialForm, hasFile, priceIsPositive) == Some(MissingFields)
  {
  }

  /** The metadata URL without one leading `ipfs://`. */
  function StripIpfsScheme(url: string): (tokenUri: string)
    ensures StartsWith(url, DecentralizedStorage.IpfsScheme) ==> DecentralizedStorage.IpfsScheme + tokenUri == url
    ensures !StartsWith(url, DecentralizedStorage.IpfsScheme) ==> tokenUri == url
  {
    if StartsWith(url, DecentralizedStorage.IpfsScheme) then
      assert url == url[..7] + url[7..];
      url[7..]
    else url
  }

  /** The `tokenURI` local of `sendTxToBlockchain`, reassigned when the prefix is there. */
  method NormalizeTokenUri(url: string) returns (tokenUri: string)
    ensures tokenUri == StripIpfsScheme(url)
  {
    tokenUri := url;
    if StartsWith(tokenUri, DecentralizedStorage.IpfsScheme) {
      tokenUri := tokenUri[7..];
    }
  }

  /** Stripping undoes the `ipfs://` wrapping of an uploaded reference, and only that: exactly 7 characters go. */
  lemma StripUndoesWrap(ref: string)
    ensures StripIpfsScheme(DecentralizedStorage.IpfsScheme + ref) == ref
    ensures |StripIpfsScheme(DecentralizedStorage.IpfsScheme + ref)| == |DecentralizedStorage.IpfsScheme + ref| - 7
  {
    assert (DecentralizedStorage.IpfsScheme + ref)[..7] == DecentralizedStorage.IpfsScheme;
  }

  /** A token minted from a JSONBin-hosted document carries a URI that resolves to that bin. */
  lemma MintedJsonBinUriResolves(binId: string, entries: map<string, string>)
    ensures var url := DecentralizedStorage.IpfsScheme + (DecentralizedStorage.JsonBinTag + binId);
      DecentralizedStorage.GatewayUrl(StripIpfsScheme(url), entries) == DecentralizedStorage.JsonBinUrl(binId)
  {
    StripUndoesWrap(DecentralizedStorage.JsonBinTag + binId);
    DecentralizedStorage.JsonBinRefResolves(binId, entries);
  }

  /** What the mint transaction came to: mined with a hash (possibly empty), or the error thrown on the way. */
  datatype TxOutcome = Mined(hash: string) | TxFailed(error: HederaHelpers.JsError)

  /** The state cells of the registration page. `None` is React's initial `undefined` or the `null` error. */
  class MintForm {
    var errorMessage: Option<string>
    var uploadedFile: Option<DecentralizedStorage.FileInfo>
    var imageView: Option<string>
    var metaDataUrl: Option<string>
    var txUrl: Option<string>
    var txStatus: Option<string>
    var form: FormInput

    constructor ()
      ensures errorMessage.None? && uploadedFile.None?
      ensures imageView.None? && metaDataUrl.None? && txUrl.None? && txStatus.None?
      ensures form == InitialForm
    {
      errorMessage := None;
      uploadedFile := None;
      imageView := None;
      metaDataUrl := None;
      txUrl := None;
      txStatus := None;
      form := InitialForm;
    }

    /** `updateFormInput`. */
    method UpdateFormInput(newForm: FormInput)
      modifies this
      ensures form == newForm
      ensures errorMessage == old(errorMessage) && uploadedFile == old(uploadedFile)
      ensures imageView == old(imageView) && metaDataUrl == old(metaDataUrl)
      ensures txUrl == old(txUrl) && txStatus == old(txStatus)
    {
      form := newForm;
    }

    /** `handleFileUpload`: keep the chosen file and clear the previous result. */
    method HandleFileUpload(file: Option<DecentralizedStorage.FileInfo>)
      modifies this
      ensures uploadedFile == file
      ensures txStatus == Some("") && imageView == Some("") && metaDataUrl == Some("") && txUrl == Some("")
      ensures errorMessage == old(errorMessage) && form == old(form)
    {
      uploadedFile := file;
      txStatus := Some("");
      imageView := Some("");
      metaDataUrl := Some("");
      txUrl := Some("");
    }

    /**
     * `sendTxToBlockchain`: announce the submission and compute the token URI;
     * on failure record the error (the caller then sees the same error).
     */
    method SendTxToBlockchain(content: DecentralizedStorage.NftContent, tx: TxOutcome) returns (tokenUri: string)
      modifies this
      ensures tokenUri == StripIpfsScheme(content.url)
      ensures txStatus == Some(SubmittingStatus)
      ensures tx.TxFailed? ==> errorMessage == Some("Failed to send tx to Hedera Testnet: " + tx.error.message)
      ensures tx.Mined? ==> errorMessage == old(errorMessage)
      ensures uploadedFile == old(uploadedFile) && form == old(form)
      ensures imageView == old(imageView) && metaDataUrl == old(metaDataUrl) && txUrl == old(txUrl)
    {
      txStatus := Some(SubmittingStatus);
      tokenUri := NormalizeTokenUri(content.url);
      if tx.TxFailed? {
        errorMessage := Some("Failed to send tx to Hedera Testnet: " + tx.error.message);
      }
    }

    /** `previewNFT`: refused without a hash; otherwise show the image, the metadata link and the explorer link. */
    method PreviewNft(content: DecentralizedStorage.NftContent, hash: string, entries: map<string, string>)
      modifies this
      ensures hash == "" ==>
        && errorMessage == Some(NoHashMessage)
        && imageView == old(imageView) && metaDataUrl == old(metaDataUrl)
        && txUrl == old(txUrl) && txStatus == old(txStatus)
      ensures hash != "" ==>
        && errorMessage == old(errorMessage)
        && imageView == Some(if content.imageUrl != "" then content.imageUrl else DecentralizedStorage.GatewayUrl(content.url, entries))
        && metaDataUrl == Some(if content.gateway != "" then content.gateway else DecentralizedStorage.GatewayUrl(content.url, entries))
        && txUrl == Some(ExplorerUrl + "/transaction/" + hash)
        && txStatus == Some(SuccessStatus)
      ensures uploadedFile == old(uploadedFile) && form == old(form)
    {
      if hash == "" {
        errorMessage := Some(NoHashMessage);
        return;
      }
      imageView := Some(if content.imageUrl != "" then content.imageUrl else DecentralizedStorage.GatewayUrl(content.url, entries));
      metaDataUrl := Some(if content.gateway != "" then content.gateway else DecentralizedStorage.GatewayUrl(content.url, entries));
      txUrl := Some(ExplorerUrl + "/transaction/" + hash);
      txStatus := Some(SuccessStatus);
    }

    /**
     * `mintNFTToken`: clear the error, validate, upload, mint, preview.
     * `image` and `metadata` are what the two uploads learn from the outside
     * world; `tx` is what the mint transaction comes to. Returns the token URI
     * sent to `createToken` once validation passes.
     */
    method MintNftToken(store: DecentralizedStorage.LocalStore, priceIsPositive: bool,
                        image: DecentralizedStorage.Attempt, documentSize: nat,
                        metadata: DecentralizedStorage.Attempt, tx: TxOutcome)
      returns (tokenUri: Option<string>)
      modifies this, store
      ensures var v := Validate(old(form), old(uploadedFile).Some?, priceIsPositive);
        v.Some? ==>
          && errorMessage == Some(ValidationMessage(v.value))
          && tokenUri.None?
          && store.entries == old(store.entries)
          && imageView == old(imageView) && metaDataUrl == old(metaDataUrl)
          && txUrl == old(txUrl) && txStatus == old(txStatus)
      ensures var v := Validate(old(form), old(uploadedFile).Some?, priceIsPositive);
        v.None? ==>
          var imageUpload := DecentralizedStorage.IpfsUploadResult(old(store.entries), old(uploadedFile).value, image);
          var metadataUpload := DecentralizedStorage.IpfsUploadResult(imageUpload.entries, DecentralizedStorage.MetadataBlob(documentSize), metadata);
          && tokenUri == Some(metadataUpload.id)
          && store.entries == metadataUpload.entries
          && (tx.Mined? && tx.hash != "" ==>
                && errorMessage.None?
                && metaDataUrl == Some(DecentralizedStorage.PinataGateway + (DecentralizedStorage.IpfsScheme + metadataUpload.id))
                && txStatus == Some(SuccessStatus)
                && txUrl == Some(ExplorerUrl + "/transaction/" + tx.hash)
                && imageView == Some(DecentralizedStorage.PinataGateway + (DecentralizedStorage.IpfsScheme + imageUpload.id)))
          && (tx.Mined? && tx.hash == "" ==>
                && errorMessage == Some(NoHashMessage) && txStatus == Some(SubmittingStatus)
                && imageView == old(imageView) && metaDataUrl == old(metaDataUrl) && txUrl == old(txUrl))
          && (tx.TxFailed? ==>
                && errorMessage == Some("Minting failed: " + (if tx.error.message != "" then tx.error.message else "Unknown error occurred"))
                && txStatus == Some(SubmittingStatus)
                && imageView == old(imageView) && metaDataUrl == old(metaDataUrl) && txUrl == old(txUrl))
      ensures form == old(form) && uploadedFile == old(uploadedFile)
    {
      errorMessage := None;
      var v := Validate(form, uploadedFile.Some?, priceIsPositive);
      if v.Some? {
        errorMessage := Some(ValidationMessage(v.value));
        return None;
      }
      var content := DecentralizedStorage.UploadNftContent(store, uploadedFile.value, image, documentSize, metadata);
      var uri := SendTxToBlockchain(content, tx);
      StripUndoesWrap(content.url[|DecentralizedStorage.IpfsScheme|..]);
      assert content.url == DecentralizedStorage.IpfsScheme + content.url[|DecentralizedStorage.IpfsScheme|..];
      tokenUri := Some(uri);
      if tx.TxFailed? {
        var message := tx.error.message;
        errorMessage := Some("Minting failed: " + (if message != "" then message else "Unknown error occurred"));
        return;
      }
      PreviewNft(content, tx.hash, store.entries);
    }
  }
}
