/** Drug verification: the three-source resolution chain (external registry, IPFS, past
    verifications), the text and image variants that extract a NAFDAC code first, the verdict
    classifier, and admin registration of a drug on IPFS. */
module DrugVerification {
  import opened Common
  import opened Types
  import opened Ipfs

  datatype Source = ExternalApi | IpfsSource | Database | UnknownSource

  datatype VerificationResult = VerificationResult(
    drugInfo: DrugInfo,
    source: Source,
    ipfsCID: Option<string>,
    extractedNafdacCode: Option<string>)

  /** An outside lookup the chain performed, in the order performed. */
  datatype Call =
    | RegistryLookup(code: string)
    | IndexLookup(code: string)
    | GatewayFetch(cid: string)
    | HistoryLookup(code: string)

  /** What the chain can consult. The registry maps each code it knows to its drug information (a
      code it does not know, or a failed call, is a miss); the IPFS index is in insertion order.
      `indexFails` and `historyFails` stand for a read of the IPFS index or of the stored
      verifications that throws. */
  datatype World = World(
    registry: map<string, DrugInfo>,
    env: Env,
    index: seq<IndexEntry>,
    gateway: Gateway,
    indexFails: bool,
    historyFails: bool)

  const UnknownManufacturer := "Unknown Manufacturer"

  // ---------------------------------------------------------------------------
  // Verdict
  // ---------------------------------------------------------------------------

  /** `determineResult`: classify a status and an expiry date at time `now`. */
  function DetermineResult(info: DrugInfo, now: Timestamp): Verdict {
    if !Truthy(info.status) || info.status.value == "unverified" then Unverified
    else if info.status.value == "expired" then Expired
    else if info.status.value == "verified" then
      if info.expiryDate.Some? && info.expiryDate.value < now then Expired else Verified
    else Invalid
  }

  /** Each verdict, characterised by the status and expiry date it comes from. */
  lemma DetermineResultCases(info: DrugInfo, now: Timestamp)
    ensures DetermineResult(info, now) == Unverified <==> !Truthy(info.status) || info.status.value == "unverified"
    ensures DetermineResult(info, now) == Verified <==>
      info.status == Some("verified") && (info.expiryDate.None? || now <= info.expiryDate.value)
    ensures DetermineResult(info, now) == Expired <==>
      info.status == Some("expired")
      || (info.status == Some("verified") && info.expiryDate.Some? && info.expiryDate.value < now)
    ensures DetermineResult(info, now) == Invalid <==>
      Truthy(info.status) && info.status.value !in {"unverified", "expired", "verified"}
  {
  }

  /** Time only moves a verdict from verified to expired, never back. */
  lemma ExpiryIsMonotone(info: DrugInfo, t1: Timestamp, t2: Timestamp)
    requires t1 <= t2
    ensures DetermineResult(info, t1) == Expired ==> DetermineResult(info, t2) == Expired
    ensures DetermineResult(info, t2) == Verified ==> DetermineResult(info, t1) == Verified
    ensures DetermineResult(info, t1) != DetermineResult(info, t2) ==>
      DetermineResult(info, t1) == Verified && DetermineResult(info, t2) == Expired
  {
  }

  // ---------------------------------------------------------------------------
  // The three sources
  // ---------------------------------------------------------------------------

  function ExternalStep(w: World, code: string): Option<DrugInfo> {
    if code in w.registry then Some(w.registry[code]) else None
  }

  datatype IpfsOutcome = IpfsOutcome(info: Option<DrugInfo>, cid: Option<string>, calls: seq<Call>)

  /** The index entry for `code` that `find({nafdacCode}).sort({createdAt: -1}).limit(1)` returns:
      one with the latest creation time. */
  predicate IsLatestEntry(index: seq<IndexEntry>, code: string, i: int) {
    && 0 <= i < |index| && index[i].nafdacCode == code
    && (forall j :: 0 <= j < |index| && index[j].nafdacCode == code ==> index[j].createdAt <= index[i].createdAt)
  }

  /** `verifyDrugByIPFS`: skipped when IPFS is not configured; a miss when the index read throws;
      otherwise the most recent index entry for the code decides the CID, and only then is the
      gateway asked. */
  function IpfsStep(w: World, code: string): (r: IpfsOutcome)
    ensures !IsConfigured(w.env) ==> r.info.None? && r.calls == []
    ensures IsConfigured(w.env) && w.indexFails ==> r.info.None? && r.calls == [IndexLookup(code)]
    ensures IsConfigured(w.env) && (forall j :: 0 <= j < |w.index| ==> w.index[j].nafdacCode != code) ==>
      r.info.None? && r.calls == [IndexLookup(code)]
    ensures IsConfigured(w.env) && !w.indexFails && (exists j :: 0 <= j < |w.index| && w.index[j].nafdacCode == code) ==>
      exists i :: IsLatestEntry(w.index, code, i) && r.calls == [IndexLookup(code), GatewayFetch(w.index[i].ipfsCID)]
        && (r.info.Some? <==> w.index[i].ipfsCID in w.gateway)
        && (r.info.Some? ==>
              r.cid == Some(w.index[i].ipfsCID) && r.info == Some(RecordToDrugInfo(w.gateway[w.index[i].ipfsCID])))
    ensures r.info.None? ==> r.cid.None?
  {
    if !IsConfigured(w.env) then IpfsOutcome(None, None, [])
    else if w.indexFails then IpfsOutcome(None, None, [IndexLookup(code)])
    else
      match LatestIndex(w.index, (e: IndexEntry) => e.nafdacCode == code, (e: IndexEntry) => e.createdAt)
      case None => IpfsOutcome(None, None, [IndexLookup(code)])
      case Some(i) =>
        var entry := w.index[i];
        var found := SearchDrugOnIPFS(code, [entry], w.gateway);
        assert found.fetched == Some(entry.ipfsCID);
        assert IsLatestEntry(w.index, code, i);
        match found.record
        case Some(rec) =>
          IpfsOutcome(Some(RecordToDrugInfo(rec)), Some(entry.ipfsCID), [IndexLookup(code), GatewayFetch(entry.ipfsCID)])
        case None => IpfsOutcome(None, None, [IndexLookup(code), GatewayFetch(entry.ipfsCID)])
  }

  predicate VerifiedFor(code: string, rec: VerificationRecord) {
    rec.nafdacCode == Some(code) && rec.result == Verified
  }

  /** `verifyDrugByDatabase`: the most recent stored verification of the code whose result was
      `verified` (`findOne` sorted by creation time, latest first); a miss when the read throws. */
  function DatabaseStep(history: seq<VerificationRecord>, code: string, readFails: bool): (r: Option<DrugInfo>)
    ensures r.None? <==> readFails || forall j :: 0 <= j < |history| ==> !VerifiedFor(code, history[j])
    ensures r.Some? ==>
      exists i :: 0 <= i < |history| && VerifiedFor(code, history[i]) && r.value == history[i].drugInfo
        && forall j :: 0 <= j < |history| && VerifiedFor(code, history[j]) ==> history[j].createdAt <= history[i].createdAt
  {
    if readFails then None
    else
      match LatestIndex(history, (rec: VerificationRecord) => VerifiedFor(code, rec), (rec: VerificationRecord) => rec.createdAt)
      case None => None
      case Some(i) => Some(history[i].drugInfo)
  }

  /** A verified record of the code stored no earlier than any other is what the history answers
      next, as long as the read goes through. */
  lemma NewestVerificationIsAnswered(history: seq<VerificationRecord>, rec: VerificationRecord, code: string)
    requires VerifiedFor(code, rec)
    requires forall j :: 0 <= j < |history| ==> history[j].createdAt <= rec.createdAt
    ensures DatabaseStep(history + [rec], code, false) == Some(rec.drugInfo)
  {
    var all := history + [rec];
    var p := (r: VerificationRecord) => VerifiedFor(code, r);
    var key := (r: VerificationRecord) => r.createdAt;
    var found := LatestIndex(all, p, key);
    assert p(all[|all| - 1]);
    assert found.Some? && found.value <= |all| - 1;
    assert forall j :: 0 <= j < |history| ==> all[j] == history[j];
  }

  /** The placeholder returned when no source knows the code. */
  function NotFound(code: string): DrugInfo {
    DrugInfo(Some("Drug " + code), Some(UnknownManufacturer), Some("unverified"), None, None)
  }

  datatype Resolution = Resolution(result: VerificationResult, calls: seq<Call>)

  /** The resolution chain: the first source that knows the code decides the result and its source
      tag, and no later source is consulted. */
  function Resolve(w: World, history: seq<VerificationRecord>, code: string): (r: Resolution)
    ensures r.result.extractedNafdacCode.None?
    ensures |r.calls| >= 1 && r.calls[0] == RegistryLookup(code)
    ensures r.result.source == ExternalApi <==> code in w.registry
    ensures r.result.source == ExternalApi ==>
      r.result.drugInfo == w.registry[code] && r.result.ipfsCID.None? && r.calls == [RegistryLookup(code)]
    ensures r.result.source == IpfsSource <==> code !in w.registry && IpfsStep(w, code).info.Some?
    ensures r.result.source == IpfsSource ==>
      Some(r.result.drugInfo) == IpfsStep(w, code).info && r.result.ipfsCID == IpfsStep(w, code).cid
      && r.result.ipfsCID.Some?
    ensures r.result.source == Database <==>
      code !in w.registry && IpfsStep(w, code).info.None? && DatabaseStep(history, code, w.historyFails).Some?
    ensures r.result.source == Database ==>
      Some(r.result.drugInfo) == DatabaseStep(history, code, w.historyFails) && r.result.ipfsCID.None?
    ensures r.result.source == UnknownSource ==> r.result.drugInfo == NotFound(code) && r.result.ipfsCID.None?
    ensures HistoryLookup(code) in r.calls <==> r.result.source in {Database, UnknownSource}
  {
    match ExternalStep(w, code)
    case Some(info) => Resolution(VerificationResult(info, ExternalApi, None, None), [RegistryLookup(code)])
    case None =>
      var ipfs := IpfsStep(w, code);
      var calls := [RegistryLookup(code)] + ipfs.calls;
      assert HistoryLookup(code) !in calls;
      if ipfs.info.Some? then
        Resolution(VerificationResult(ipfs.info.value, IpfsSource, ipfs.cid, None), calls)
      else
        match DatabaseStep(history, code, w.historyFails)
        case Some(info) =>
          Resolution(VerificationResult(info, Database, None, None), calls + [HistoryLookup(code)])
        case None =>
          Resolution(VerificationResult(NotFound(code), UnknownSource, None, None), calls + [HistoryLookup(code)])
  }

  /** A read that throws is a miss, and the chain goes on to the next source: with the index read
      failing no answer comes from IPFS, with the history read failing none from the database, and
      with both failing the placeholder is returned. */
  lemma FailedReadsFallThrough(w: World, history: seq<VerificationRecord>, code: string)
    requires code !in w.registry
    ensures w.indexFails ==> Resolve(w, history, code).result.source != IpfsSource
    ensures w.historyFails ==> Resolve(w, history, code).result.source != Database
    ensures w.indexFails && w.historyFails ==>
      Resolve(w, history, code).result == VerificationResult(NotFound(code), UnknownSource, None, None)
    ensures w.historyFails ==> HistoryLookup(code) in Resolve(w, history, code).calls || IpfsStep(w, code).info.Some?
  {
  }

  /** A code known to the registry and to past verifications is still answered by the registry. */
  lemma RegistryWinsOverHistory(w: World, history: seq<VerificationRecord>, code: string)
    requires code in w.registry && DatabaseStep(history, code, w.historyFails).Some?
    ensures Resolve(w, history, code).result.source == ExternalApi
    ensures HistoryLookup(code) !in Resolve(w, history, code).calls
  {
  }

  /** `verifyDrugByNAFDAC`: the chain as a sequence of lookups with early returns. */
  method VerifyByNAFDAC(w: World, history: seq<VerificationRecord>, code: string)
    returns (r: VerificationResult, calls: seq<Call>)
    ensures Resolution(r, calls) == Resolve(w, history, code)
  {
    calls := [RegistryLookup(code)];
    var external := ExternalStep(w, code);
    if external.Some? {
      return VerificationResult(external.value, ExternalApi, None, None), calls;
    }
    var ipfs := IpfsStep(w, code);
    calls := calls + ipfs.calls;
    if ipfs.info.Some? {
      return VerificationResult(ipfs.info.value, IpfsSource, ipfs.cid, None), calls;
    }
    calls := calls + [HistoryLookup(code)];
    var stored := DatabaseStep(history, code, w.historyFails);
    if stored.Some? {
      return VerificationResult(stored.value, Database, None, None), calls;
    }
    r := VerificationResult(NotFound(code), UnknownSource, None, None);
  }

  // ---------------------------------------------------------------------------
  // NAFDAC code extraction
  // ---------------------------------------------------------------------------

  const CodeLength: nat := 7

  predicate IsDigit(c: char) {
    '0' <= c <= '9'
  }

  /** The characters a regular-expression word boundary `\b` separates from the others. */
  predicate IsWordChar(c: char) {
    IsDigit(c) || 'a' <= c <= 'z' || 'A' <= c <= 'Z' || c == '_'
  }

  /** `/\d{2}-\d{4}/` matches at position `i`. */
  predicate CodeAt(s: string, i: nat) {
    && i + CodeLength <= |s|
    && IsDigit(s[i]) && IsDigit(s[i + 1]) && s[i + 2] == '-'
    && IsDigit(s[i + 3]) && IsDigit(s[i + 4]) && IsDigit(s[i + 5]) && IsDigit(s[i + 6])
  }

  /** `/\b\d{2}-\d{4}\b/` matches at position `i`. */
  predicate BoundedCodeAt(s: string, i: nat) {
    && CodeAt(s, i)
    && (i == 0 || !IsWordChar(s[i - 1]))
    && (i + CodeLength == |s| || !IsWordChar(s[i + CodeLength]))
  }

  predicate MatchAt(s: string, i: nat, bounded: bool) {
    if bounded then BoundedCodeAt(s, i) else CodeAt(s, i)
  }

  /** The leftmost match at or after `from`. */
  function FirstMatchFrom(s: string, from: nat, bounded: bool): (r: Option<nat>)
    decreases |s| - from
    ensures r.Some? ==> from <= r.value && r.value + CodeLength <= |s| && MatchAt(s, r.value, bounded)
    ensures r.Some? ==> forall j :: from <= j < r.value ==> !MatchAt(s, j, bounded)
    ensures r.None? ==> forall j :: from <= j ==> !MatchAt(s, j, bounded)
  {
    if from + CodeLength > |s| then None
    else if MatchAt(s, from, bounded) then Some(from)
    else FirstMatchFrom(s, from + 1, bounded)
  }

  /** `s.match(regex)?.[0]`: the leftmost code in the text, if any. */
  function ExtractCode(s: string, bounded: bool): (r: Option<string>)
    ensures r.Some? ==> |r.value| == CodeLength
    ensures r.Some? ==>
      exists i: nat :: MatchAt(s, i, bounded) && i + CodeLength <= |s| && r.value == s[i..i + CodeLength]
        && forall j: nat :: j < i ==> !MatchAt(s, j, bounded)
    ensures r.None? <==> forall j: nat :: !MatchAt(s, j, bounded)
  {
    match FirstMatchFrom(s, 0, bounded)
    case None => None
    case Some(i) => Some(s[i..i + CodeLength])
  }

  /** A word-bounded code is also a plain code, so text with a word-bounded code always has a
      plain code too. */
  lemma BoundedCodeIsCode(s: string)
    requires ExtractCode(s, true).Some?
    ensures ExtractCode(s, false).Some?
  {
    var i :| MatchAt(s, i, true);
    assert MatchAt(s, i, false);
  }

  /** The two extractions can disagree: the plain pattern finds a code inside a longer run of
      digits, where the word-bounded one finds none. */
  lemma BoundaryMatters()
    ensures ExtractCode("104-12345", true).None?
    ensures ExtractCode("104-12345", false) == Some("04-1234")
  {
    var s := "104-12345";
    forall j: nat ensures !MatchAt(s, j, true) {
      if j == 0 || j == 1 {
        assert !BoundedCodeAt(s, j);
      }
    }
    assert !MatchAt(s, 0, false);
    assert MatchAt(s, 1, false);
    assert s[1..1 + CodeLength] == "04-1234";
  }

  // ---------------------------------------------------------------------------
  // Text and image variants
  // ---------------------------------------------------------------------------

  const Paracetamol := DrugInfo(Some("Paracetamol 500mg"), Some("Emzor Pharmaceuticals"), Some("verified"),
                                Some(1767139200000), Some("BATCH-2024-001"))  // expiry 2025-12-31
  const Amoxicillin := DrugInfo(Some("Amoxicillin 250mg"), Some("Fidson Healthcare"), Some("verified"),
                                Some(1719705600000), Some("BATCH-2023-045"))  // expiry 2024-06-30

  /** The development registry the external lookup currently answers from. */
  const MockRegistry: map<string, DrugInfo> := map["04-1234" := Paracetamol, "05-5678" := Amoxicillin]

  /** The keyword search used for text without a code. */
  function KeywordSearch(text: string): DrugInfo {
    var lower := ToLower(text);
    if Contains(lower, "paracetamol") then Paracetamol
    else if Contains(lower, "amoxicillin") then Amoxicillin
    else DrugInfo(Some(text), Some(UnknownManufacturer), Some("unverified"), None, None)
  }

  /** The text names one of the drugs the keyword search knows, in any letter case. */
  predicate NamesKnownDrug(text: string) {
    Contains(ToLower(text), "paracetamol") || Contains(ToLower(text), "amoxicillin")
  }

  lemma ToLowerIdempotent(s: string)
    ensures ToLower(ToLower(s)) == ToLower(s)
  {
  }

  /** The keyword search ignores letter case: lower-casing the text first changes nothing, except
      the name a miss carries, which is the text it was given. */
  lemma KeywordSearchIgnoresCase(text: string)
    ensures NamesKnownDrug(ToLower(text)) <==> NamesKnownDrug(text)
    ensures NamesKnownDrug(text) ==> KeywordSearch(ToLower(text)) == KeywordSearch(text)
    ensures !NamesKnownDrug(text) ==> KeywordSearch(ToLower(text)) == KeywordSearch(text).(name := Some(ToLower(text)))
  {
    ToLowerIdempotent(text);
  }

  /** A keyword hit is a verified drug, expired only after its expiry date; a miss is unverified
      at every time, carries the text as its name and has an unknown manufacturer. */
  lemma KeywordVerdict(text: string, now: Timestamp)
    ensures DetermineResult(KeywordSearch(text), now) == Unverified <==> !NamesKnownDrug(text)
    ensures NamesKnownDrug(text) ==>
      KeywordSearch(text).status == Some("verified") && KeywordSearch(text).expiryDate.Some?
      && (DetermineResult(KeywordSearch(text), now) == Verified <==> now <= KeywordSearch(text).expiryDate.value)
    ensures !NamesKnownDrug(text) ==>
      KeywordSearch(text).name == Some(text) && KeywordSearch(text).manufacturer == Some(UnknownManufacturer)
  {
  }

  /** Text that names both drugs is answered with paracetamol, whatever its letter case. */
  lemma UpperCaseNameIsFound()
    ensures KeywordSearch("AMOXICILLIN OR PARACETAMOL") == Paracetamol
  {
    var lower := ToLower("AMOXICILLIN OR PARACETAMOL");
    assert lower[15..26] == "paracetamol";
    assert OccursAt(lower, "paracetamol", 15);
  }

  /** `verifyDrugByText` as the result and lookups it produces: the first code through the chain,
      otherwise the keyword search. */
  function TextResolution(w: World, history: seq<VerificationRecord>, text: string): Resolution {
    match ExtractCode(text, false)
    case Some(code) => Resolve(w, history, code)
    case None => Resolution(VerificationResult(KeywordSearch(text), Database, None, None), [])
  }

  /** `verifyDrugByText` */
  method VerifyByText(w: World, history: seq<VerificationRecord>, text: string)
    returns (r: VerificationResult, calls: seq<Call>)
    ensures ExtractCode(text, false).Some? ==>
      Resolution(r, calls) == Resolve(w, history, ExtractCode(text, false).value)
    ensures ExtractCode(text, false).None? ==>
      r == VerificationResult(KeywordSearch(text), Database, None, None) && calls == []
    ensures Resolution(r, calls) == TextResolution(w, history, text)
  {
    var code := ExtractCode(text, false);
    if code.Some? {
      r, calls := VerifyByNAFDAC(w, history, code.value);
      return;
    }
    r := VerificationResult(KeywordSearch(text), Database, None, None);
    calls := [];
  }

  const UnreadableImage := DrugInfo(Some("Unknown Drug"), Some(UnknownManufacturer), Some("unverified"), None, None)

  /** `verifyDrugByImage` as the result and lookups it produces. */
  function ImageResolution(w: World, history: seq<VerificationRecord>, ocrText: Option<string>): Resolution {
    if !Truthy(ocrText) then Resolution(VerificationResult(UnreadableImage, UnknownSource, None, None), [])
    else
      match ExtractCode(ocrText.value, true)
      case Some(code) =>
        var res := Resolve(w, history, code);
        Resolution(res.result.(extractedNafdacCode := Some(code)), res.calls)
      case None => TextResolution(w, history, ocrText.value)
  }

  /** `verifyDrugByImage`; `ocrText` is what text recognition read from the image (`None` when it
      failed or is not configured). */
  method VerifyByImage(w: World, history: seq<VerificationRecord>, ocrText: Option<string>)
    returns (r: VerificationResult, calls: seq<Call>)
    ensures !Truthy(ocrText) ==> r == VerificationResult(UnreadableImage, UnknownSource, None, None) && calls == []
    ensures Truthy(ocrText) && ExtractCode(ocrText.value, true).Some? ==>
      var code := ExtractCode(ocrText.value, true).value;
      r == Resolve(w, history, code).result.(extractedNafdacCode := Some(code))
      && calls == Resolve(w, history, code).calls
    ensures Truthy(ocrText) && ExtractCode(ocrText.value, true).None? ==>
      r.extractedNafdacCode.None?
      && (ExtractCode(ocrText.value, false).Some? ==>
            Resolution(r, calls) == Resolve(w, history, ExtractCode(ocrText.value, false).value))
      && (ExtractCode(ocrText.value, false).None? ==>
            r == VerificationResult(KeywordSearch(ocrText.value), Database, None, None))
    ensures Resolution(r, calls) == ImageResolution(w, history, ocrText)
  {
    if !Truthy(ocrText) {
      return VerificationResult(UnreadableImage, UnknownSource, None, None), [];
    }
    var text := ocrText.value;
    var code := ExtractCode(text, true);
    if code.Some? {
      r, calls := VerifyByNAFDAC(w, history, code.value);
      r := r.(extractedNafdacCode := code);
      return;
    }
    r, calls := VerifyByText(w, history, text);
  }

  // ---------------------------------------------------------------------------
  // Admin registration
  // ---------------------------------------------------------------------------

  datatype RegisterResult = RegisterResult(success: bool, cid: Option<string>, error: Option<string>)

  /** The `ipfs_index` collection. */
  class IpfsIndex {
    var entries: seq<IndexEntry>

    constructor (initial: seq<IndexEntry>)
      ensures entries == initial
    {
      entries := initial;
    }

    /** `registerDrugToIPFS`: validation first, then configuration, then the upload; only an
        upload that succeeded with a CID adds an index entry. `uploaded` is the record sent to
        Pinata, if one was; `insertError` is the message of the error the index insert threw, if
        it threw. */
    method RegisterDrugToIPFS(code: string, info: DrugInfo, userId: string, env: Env, now: Timestamp,
                              response: PinataResponse, insertError: Option<string>)
      returns (r: RegisterResult, uploaded: Option<IpfsRecord>)
      modifies this
      ensures !Truthy(info.name) || !Truthy(info.manufacturer) ==>
        r == RegisterResult(false, None, Some("Drug name and manufacturer are required")) && uploaded.None?
      ensures Truthy(info.name) && Truthy(info.manufacturer) && !IsConfigured(env) ==>
        !r.success && r.error.Some? && uploaded.None?
      ensures Truthy(info.name) && Truthy(info.manufacturer) && IsConfigured(env) ==>
        uploaded == Some(DrugInfoToRecord(code, info, Some(userId), now))
      ensures (Truthy(info.name) && Truthy(info.manufacturer) && IsConfigured(env)
               && response.PinataOk? && Truthy(response.ipfsHash) && insertError.Some?) ==>
        r == RegisterResult(false, None, insertError)
      ensures r.success <==>
        Truthy(info.name) && Truthy(info.manufacturer) && IsConfigured(env)
        && response.PinataOk? && Truthy(response.ipfsHash) && insertError.None?
      ensures r.success ==> r.cid == response.ipfsHash && r.error.None?
      ensures !r.success ==> r.error.Some?
      ensures entries == if r.success then old(entries) + [IndexEntry(code, r.cid.value, now)] else old(entries)
    {
      if !Truthy(info.name) || !Truthy(info.manufacturer) {
        return RegisterResult(false, None, Some("Drug name and manufacturer are required")), None;
      }
      if !IsConfigured(env) {
        return RegisterResult(false, None,
          Some("IPFS is not configured. Please set PINATA_API_KEY and PINATA_SECRET_KEY")), None;
      }
      var record := DrugInfoToRecord(code, info, Some(userId), now);
      uploaded := Some(record);
      ConfiguredPassesUploadGuard(env);
      var result := UploadDrugToIPFS(env, response);
      if result.success && Truthy(result.cid) {
        if insertError.Some? {
          return RegisterResult(false, None, insertError), uploaded;
        }
        entries := entries + [IndexEntry(code, result.cid.value, now)];
        return RegisterResult(true, result.cid, None), uploaded;
      }
      r := RegisterResult(false, None, Some(OrElse(result.error, "Failed to upload to IPFS")));
    }
  }

  /** A registered drug is found by the chain afterwards, unless the registry already knows the
      code: its index entry, stamped with the current time, is the most recent one for the code. */
  lemma RegisteredDrugIsFoundOnIpfs(w: World, history: seq<VerificationRecord>, code: string, cid: string,
                                    now: Timestamp, rec: IpfsRecord)
    requires IsConfigured(w.env) && code !in w.registry && !w.indexFails
    requires w.gateway == w.gateway[cid := rec] && cid in w.gateway
    requires forall j :: 0 <= j < |w.index| ==> w.index[j].createdAt <= now
    ensures var w' := w.(index := w.index + [IndexEntry(code, cid, now)]);
            Resolve(w', history, code).result.source == IpfsSource
            && Resolve(w', history, code).result.ipfsCID == Some(cid)
            && Resolve(w', history, code).result.drugInfo == RecordToDrugInfo(rec)
  {
    var w' := w.(index := w.index + [IndexEntry(code, cid, now)]);
    var last := |w'.index| - 1;
    assert w'.index[last].nafdacCode == code;
    assert IpfsStep(w', code).info.Some?;
  }
}
