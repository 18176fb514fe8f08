/** The IPFS side of drug registration: Pinata configuration, the upload guard, the code-to-CID
    index search and the conversions between drug information and stored IPFS records. The
    HTTP calls to Pinata and to the gateway are inputs: what Pinata answered, and what the gateway
    returns for each CID. */
module Ipfs {
  import opened Common
  import opened Types

  const ApiKeyVar := "PINATA_API_KEY"
  const SecretKeyVar := "PINATA_SECRET_KEY"
  const ApiKeyPlaceholder := "your_pinata_api_key"
  const SecretKeyPlaceholder := "your_pinata_secret_key"

  /** A drug record as pinned on IPFS; every attribute is filled in. */
  datatype IpfsRecord = IpfsRecord(
    nafdacCode: string,
    name: string,
    manufacturer: string,
    status: string,
    expiryDate: Timestamp,
    batchNumber: string,
    registeredAt: Timestamp,
    registeredBy: Option<string>)

  /** One entry of the `ipfs_index` collection. */
  datatype IndexEntry = IndexEntry(nafdacCode: string, ipfsCID: string, createdAt: Timestamp)

  /** The gateway: what fetching each CID returns (a CID that is absent failed or was not ok). */
  type Gateway = map<string, IpfsRecord>

  /** Both Pinata keys are set, non-empty, and not the placeholder values of the sample env file. */
  predicate IsConfigured(env: Env) {
    && Truthy(EnvGet(env, ApiKeyVar))
    && Truthy(EnvGet(env, SecretKeyVar))
    && env[ApiKeyVar] != ApiKeyPlaceholder
    && env[SecretKeyVar] != SecretKeyPlaceholder
  }

  /** The weaker guard `uploadDrugToIPFS` applies itself: both keys merely non-empty. */
  predicate UploadKeysPresent(env: Env) {
    Truthy(EnvGet(env, ApiKeyVar)) && Truthy(EnvGet(env, SecretKeyVar))
  }

  /** A configured environment always passes the upload guard. */
  lemma ConfiguredPassesUploadGuard(env: Env)
    requires IsConfigured(env)
    ensures UploadKeysPresent(env)
  {
  }

  /** The converse fails: the placeholder keys pass the upload guard but do not count as configured. */
  lemma PlaceholderKeysPassUploadGuardOnly()
    ensures var env := map[ApiKeyVar := ApiKeyPlaceholder, SecretKeyVar := SecretKeyPlaceholder];
            UploadKeysPresent(env) && !IsConfigured(env)
  {
    var env := map[ApiKeyVar := ApiKeyPlaceholder, SecretKeyVar := SecretKeyPlaceholder];
    assert EnvGet(env, ApiKeyVar) == Some(ApiKeyPlaceholder);
    assert EnvGet(env, SecretKeyVar) == Some(SecretKeyPlaceholder);
  }

  /** What Pinata's pinning endpoint answered. */
  datatype PinataResponse =
    | PinataOk(ipfsHash: Option<string>)
    | PinataHttpError(body: string)
    | PinataThrew(message: Option<string>)

  datatype UploadResult = UploadResult(
    success: bool,
    cid: Option<string>,
    error: Option<string>,
    requested: bool)   // whether the request to Pinata was sent at all

  /** `uploadDrugToIPFS`: refuses without sending anything when a key is missing; otherwise the
      outcome is Pinata's answer, and on success the CID is the returned `IpfsHash`. */
  function UploadDrugToIPFS(env: Env, response: PinataResponse): (r: UploadResult)
    ensures !UploadKeysPresent(env) ==> !r.success && !r.requested && r.error.Some?
    ensures UploadKeysPresent(env) ==> r.requested
    ensures r.success <==> UploadKeysPresent(env) && response.PinataOk?
    ensures r.success ==> r.cid == response.ipfsHash && r.error.None?
    ensures !r.success ==> r.cid.None? && r.error.Some?
  {
    if !UploadKeysPresent(env) then
      UploadResult(false, None,
        Some("IPFS not configured. Set PINATA_API_KEY and PINATA_SECRET_KEY in .env.local"), false)
    else
      match response
      case PinataOk(hash) => UploadResult(true, hash, None, true)
      case PinataHttpError(body) => UploadResult(false, None, Some("Pinata upload failed: " + body), true)
      case PinataThrew(msg) => UploadResult(false, None, Some(OrElse(msg, "Failed to upload to IPFS")), true)
  }

  /** The result of `searchDrugOnIPFS`: the CID it fetched, if any, and what the fetch returned. */
  datatype SearchResult = SearchResult(fetched: Option<string>, record: Option<IpfsRecord>)

  /** `searchDrugOnIPFS`: the first index entry for the code decides the CID to fetch; with no
      entry for the code nothing is fetched. */
  function SearchDrugOnIPFS(code: string, index: seq<IndexEntry>, gateway: Gateway): (r: SearchResult)
    ensures r.fetched.None? <==> forall j :: 0 <= j < |index| ==> index[j].nafdacCode != code
    ensures r.fetched.Some? ==>
      exists i :: 0 <= i < |index| && index[i].nafdacCode == code && r.fetched.value == index[i].ipfsCID
        && forall j :: 0 <= j < i ==> index[j].nafdacCode != code
    ensures r.record.Some? <==> r.fetched.Some? && r.fetched.value in gateway
    ensures r.record.Some? ==> r.record.value == gateway[r.fetched.value]
  {
    match FirstIndex(index, (e: IndexEntry) => e.nafdacCode == code)
    case None => SearchResult(None, None)
    case Some(i) =>
      var cid := index[i].ipfsCID;
      SearchResult(Some(cid), if cid in gateway then Some(gateway[cid]) else None)
  }

  /** `drugInfoToIPFSRecord`: every missing attribute gets its default. */
  function DrugInfoToRecord(code: string, info: DrugInfo, userId: Option<string>, now: Timestamp): (r: IpfsRecord)
    ensures r.nafdacCode == code && r.registeredBy == userId && r.registeredAt == now
    ensures Truthy(info.name) ==> r.name == info.name.value
    ensures !Truthy(info.name) ==> r.name == "Unknown Drug"
    ensures Truthy(info.manufacturer) ==> r.manufacturer == info.manufacturer.value
    ensures !Truthy(info.manufacturer) ==> r.manufacturer == "Unknown Manufacturer"
    ensures Truthy(info.status) ==> r.status == info.status.value
    ensures !Truthy(info.status) ==> r.status == "unverified"
    ensures info.expiryDate.Some? ==> r.expiryDate == info.expiryDate.value
    ensures info.expiryDate.None? ==> r.expiryDate == DateOf(now) && r.expiryDate <= now
    ensures Truthy(info.batchNumber) ==> r.batchNumber == info.batchNumber.value
    ensures !Truthy(info.batchNumber) ==> r.batchNumber == "BATCH-" + code
  {
    IpfsRecord(
      code,
      OrElse(info.name, "Unknown Drug"),
      OrElse(info.manufacturer, "Unknown Manufacturer"),
      OrElse(info.status, "unverified"),
      if info.expiryDate.Some? then info.expiryDate.value else DateOf(now),
      OrElse(info.batchNumber, "BATCH-" + code),
      now,
      userId)
  }

  /** `ipfsRecordToDrugInfo`: the five drug attributes, all present. */
  function RecordToDrugInfo(rec: IpfsRecord): (info: DrugInfo)
    ensures info.name == Some(rec.name) && info.manufacturer == Some(rec.manufacturer)
    ensures info.status == Some(rec.status) && info.expiryDate == Some(rec.expiryDate)
    ensures info.batchNumber == Some(rec.batchNumber)
  {
    DrugInfo(Some(rec.name), Some(rec.manufacturer), Some(rec.status), Some(rec.expiryDate), Some(rec.batchNumber))
  }

  /** The conversion back drops the code and the registration fields: records that differ only
      there give the same drug information. */
  lemma RecordToDrugInfoDropsRegistration(a: IpfsRecord, b: IpfsRecord)
    requires a.name == b.name && a.manufacturer == b.manufacturer && a.status == b.status
    requires a.expiryDate == b.expiryDate && a.batchNumber == b.batchNumber
    ensures RecordToDrugInfo(a) == RecordToDrugInfo(b)
  {
  }

  predicate Complete(info: DrugInfo) {
    && Truthy(info.name) && Truthy(info.manufacturer) && Truthy(info.status)
    && info.expiryDate.Some? && Truthy(info.batchNumber)
  }

  /** Round trip: drug information with all five attributes survives registration and retrieval. */
  lemma RoundTrip(code: string, info: DrugInfo, userId: Option<string>, now: Timestamp)
    requires Complete(info)
    ensures RecordToDrugInfo(DrugInfoToRecord(code, info, userId, now)) == info
  {
  }

  /** Whatever is registered comes back with every attribute present. */
  lemma RoundTripFillsDefaults(code: string, info: DrugInfo, userId: Option<string>, now: Timestamp)
    ensures var back := RecordToDrugInfo(DrugInfoToRecord(code, info, userId, now));
            back.name.Some? && back.manufacturer.Some? && back.status.Some?
            && back.expiryDate.Some? && back.batchNumber.Some?
            && (!Truthy(info.status) ==> back.status == Some("unverified"))
  {
  }
}
