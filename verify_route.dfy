/** The drug-verification request handler: session check, dispatch on the verification method,
    classification of the result, and one stored verification record per successful request. */
module VerifyRoute {
  import opened Common
  import opened Types
  import opened DrugVerification

  /** An uploaded image, represented by what text recognition reads from it. */
  datatype ImageFile = ImageFile(ocrText: Option<string>)

  /** The form fields of the request and the session's user id. */
  datatype VerifyRequest = VerifyRequest(
    sessionUserId: Option<string>,
    verificationMethod: Option<string>,
    nafdacCode: Option<string>,
    text: Option<string>,
    image: Option<ImageFile>)

  datatype Mode = ByImage(image: ImageFile) | ByCode(code: string) | ByText(text: string)

  /** The method field selects the variant, and each variant needs its own field. */
  function Dispatch(req: VerifyRequest): (m: Option<Mode>)
    ensures m.Some? && m.value.ByImage? <==> req.verificationMethod == Some("image") && req.image.Some?
    ensures m.Some? && m.value.ByCode? <==> req.verificationMethod == Some("code") && Truthy(req.nafdacCode)
    ensures m.Some? && m.value.ByText? <==> req.verificationMethod == Some("text") && Truthy(req.text)
    ensures m.Some? && m.value.ByImage? ==> m.value.image == req.image.value
    ensures m.Some? && m.value.ByCode? ==> m.value.code == req.nafdacCode.value
    ensures m.Some? && m.value.ByText? ==> m.value.text == req.text.value
  {
    if req.verificationMethod == Some("image") && req.image.Some? then Some(ByImage(req.image.value))
    else if req.verificationMethod == Some("code") && Truthy(req.nafdacCode) then Some(ByCode(req.nafdacCode.value))
    else if req.verificationMethod == Some("text") && Truthy(req.text) then Some(ByText(req.text.value))
    else None
  }

  /** What the variant a request selects answers, and the lookups it makes. */
  function ModeResolution(w: World, history: seq<VerificationRecord>, mode: Mode): Resolution {
    match mode
    case ByImage(image) => ImageResolution(w, history, image.ocrText)
    case ByCode(code) => Resolve(w, history, code)
    case ByText(text) => TextResolution(w, history, text)
  }

  datatype VerifyResponse =
    | Unauthorized                    // 401
    | BadRequest                      // 400, "Invalid verification method or missing data"
    | ServerError                     // 500, "Failed to verify drug"
    | Stored(record: VerificationRecord, id: string, verificationSource: Source, ipfsCID: Option<string>)

  function Status(resp: VerifyResponse): int {
    match resp
    case Unauthorized => 401
    case BadRequest => 400
    case ServerError => 500
    case Stored(_, _, _, _) => 200
  }

  /** The verification record a successful request stores. */
  function MakeRecord(userId: string, req: VerifyRequest, r: VerificationResult, now: Timestamp): (rec: VerificationRecord)
    requires req.verificationMethod.Some?
    ensures rec.result == DetermineResult(r.drugInfo, now)
    ensures rec.nafdacCode == (if req.verificationMethod == Some("code") then req.nafdacCode else None)
    ensures rec.userId == userId && rec.drugInfo == r.drugInfo && rec.verificationMethod == req.verificationMethod.value
    ensures rec.createdAt == now
  {
    VerificationRecord(userId, if req.verificationMethod.value == "code" then req.nafdacCode else None,
                       req.verificationMethod.value, r.drugInfo, DetermineResult(r.drugInfo, now), now)
  }

  /** The `drug_verifications` collection. */
  class VerificationStore {
    var records: seq<VerificationRecord>

    constructor (initial: seq<VerificationRecord>)
      ensures records == initial
    {
      records := initial;
    }

    /** `POST /api/drug/verify`. `insertFails` stands for the database refusing the insert; `newId`
        is the id the database assigns. */
    method Post(req: VerifyRequest, w: World, now: Timestamp, newId: string, insertFails: bool)
      returns (resp: VerifyResponse, calls: seq<Call>)
      modifies this
      ensures !Truthy(req.sessionUserId) ==> resp == Unauthorized && calls == []
      ensures Truthy(req.sessionUserId) && Dispatch(req).None? ==> resp == BadRequest && calls == []
      ensures Truthy(req.sessionUserId) && Dispatch(req).Some? && insertFails ==> resp == ServerError
      ensures resp.Stored? <==> Truthy(req.sessionUserId) && Dispatch(req).Some? && !insertFails
      ensures resp.Stored? ==>
        && records == old(records) + [resp.record]
        && resp.record.userId == req.sessionUserId.value
        && resp.record.result == DetermineResult(resp.record.drugInfo, now)
        && resp.record.nafdacCode == (if req.verificationMethod == Some("code") then req.nafdacCode else None)
        && resp.id == newId
      ensures Truthy(req.sessionUserId) && Dispatch(req).Some? ==>
        calls == ModeResolution(w, old(records), Dispatch(req).value).calls
      ensures resp.Stored? ==>
        var res := ModeResolution(w, old(records), Dispatch(req).value);
        resp.record == MakeRecord(req.sessionUserId.value, req, res.result, now)
        && resp.record.drugInfo == res.result.drugInfo && resp.verificationSource == res.result.source
        && resp.ipfsCID == res.result.ipfsCID
      ensures !resp.Stored? ==> records == old(records)
    {
      calls := [];
      if !Truthy(req.sessionUserId) {
        return Unauthorized, calls;
      }
      var mode := Dispatch(req);
      if mode.None? {
        return BadRequest, calls;
      }
      var result: VerificationResult;
      match mode.value {
        case ByImage(image) =>
          result, calls := VerifyByImage(w, records, image.ocrText);
        case ByCode(code) =>
          result, calls := VerifyByNAFDAC(w, records, code);
        case ByText(text) =>
          result, calls := VerifyByText(w, records, text);
      }
      var rec := MakeRecord(req.sessionUserId.value, req, result, now);
      if insertFails {
        return ServerError, calls;
      }
      records := records + [rec];
      resp := Stored(rec, newId, result.source, result.ipfsCID);
    }
  }
}
