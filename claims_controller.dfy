/**
 * `ClaimsController`: claim submission, the upload policy, document
 * attachment and the download access rule.
 */
module ClaimsController {
  import opened Wrappers
  import opened Time
  import opened Text
  import opened ClaimStatuses
  import opened Documents
  import opened Users
  import opened ViewModels
  import LegacyClaim

  /** The 5 MiB upload limit; a file of exactly this size is accepted. */
  const MaxUploadBytes: int := 5 * 1024 * 1024

  const AllowedExtensions: seq<string> := [".pdf", ".docx", ".xlsx", ".jpg", ".png"]

  const OctetStream: string := "application/octet-stream"

  predicate IsSeparator(c: char) {
    c == '/' || c == '\\'
  }

  /**
   * `Path.GetExtension`: the text from the last '.' of the final path
   * segment to the end, or "" when there is no such '.' or nothing follows it.
   */
  function Extension(fileName: string): (ext: string)
    ensures ext == "" || (|ext| >= 2 && ext[0] == '.' && EndsWith(fileName, ext))
    ensures forall k :: 1 <= k < |ext| ==> ext[k] != '.' && !IsSeparator(ext[k])
  {
    ExtensionBefore(fileName, |fileName|)
  }

  /** The extension of `s[..i]`, read backwards from position `i`. */
  function ExtensionBefore(s: string, i: nat): (ext: string)
    requires i <= |s|
    requires forall k :: i <= k < |s| ==> s[k] != '.' && !IsSeparator(s[k])
    ensures ext == "" || (|ext| >= 2 && ext[0] == '.' && EndsWith(s, ext) && |s| - |ext| < i)
    ensures forall k :: 1 <= k < |ext| ==> ext[k] != '.' && !IsSeparator(ext[k])
    ensures ext != "" ==> forall k :: |s| - |ext| < k < |s| ==> s[k] != '.' && !IsSeparator(s[k])
    decreases i
  {
    if i == 0 then ""
    else if s[i - 1] == '.' then (if i == |s| then "" else s[i - 1..])
    else if IsSeparator(s[i - 1]) then ""
    else ExtensionBefore(s, i - 1)
  }

  /** A dot-free, separator-free suffix after a '.' is the extension, whatever comes before. */
  lemma {:induction false} ExtensionOfSuffix(stem: string, tail: string)
    requires tail != []
    requires forall k :: 0 <= k < |tail| ==> tail[k] != '.' && !IsSeparator(tail[k])
    ensures Extension(stem + "." + tail) == "." + tail
  {
    var s := stem + "." + tail;
    var dot := |stem|;
    assert s[dot] == '.';
    assert s[dot..] == "." + tail;
    forall i | dot < i <= |s|
      ensures ExtensionBefore(s, i) == "." + tail
    {
      ExtensionScan(s, dot, i);
    }
  }

  /** Scanning back from `i` over non-dot, non-separator characters reaches the dot at `dot`. */
  lemma {:induction false} ExtensionScan(s: string, dot: nat, i: nat)
    requires dot < i <= |s| && dot + 1 < |s| && s[dot] == '.'
    requires forall k :: dot < k < |s| ==> s[k] != '.' && !IsSeparator(s[k])
    ensures ExtensionBefore(s, i) == s[dot..]
    decreases i
  {
    if i - 1 != dot {
      ExtensionScan(s, dot, i - 1);
    }
  }

  /** The upload's extension, lower-cased. */
  function LowerExtension(fileName: string): string {
    Lower(Extension(fileName))
  }

  /** The MIME type of each allowed extension. */
  function MimeOf(ext: string): (mime: string)
    ensures mime != OctetStream <==> ext in AllowedExtensions
  {
    if ext == ".pdf" then "application/pdf"
    else if ext == ".docx" then "application/vnd.openxmlformats-officedocument.wordprocessingml.document"
    else if ext == ".xlsx" then "application/vnd.openxmlformats-officedocument.spreadsheetml.sheet"
    else if ext == ".jpg" then "image/jpeg"
    else if ext == ".png" then "image/png"
    else OctetStream
  }

  /** `GetContentType`: total, case-insensitive in the extension, with a catch-all. */
  function GetContentType(fileName: string): (mime: string)
    ensures mime != OctetStream <==> LowerExtension(fileName) in AllowedExtensions
  {
    MimeOf(LowerExtension(fileName))
  }

  /** Case does not matter: an upper-case extension maps like its lower-case form. */
  lemma ContentTypeIgnoresCase(stem: string, tail: string)
    requires tail != []
    requires forall k :: 0 <= k < |tail| ==> tail[k] != '.' && !IsSeparator(tail[k])
    ensures GetContentType(stem + "." + tail) == MimeOf(Lower("." + tail))
    ensures GetContentType(stem + "." + tail) == GetContentType(stem + "." + Lower(tail))
  {
    ExtensionOfSuffix(stem, tail);
    var lt := Lower(tail);
    forall k | 0 <= k < |lt| ensures lt[k] != '.' && !IsSeparator(lt[k]) {
      assert lt[k] == LowerChar(tail[k]);
    }
    ExtensionOfSuffix(stem, lt);
    assert Lower("." + tail) == "." + lt;
    LowerIdempotent("." + tail);
  }

  datatype UploadError = TooLarge | NotAllowedType

  /**
   * `SaveUploadedFile` without the disk write: the size check first, then
   * the extension allowlist, then the document record. The fresh name's
   * GUID text, the record id, the clock and the signed-in name are inputs.
   */
  function SaveUploadedFile(file: Upload, nameGuid: string, docId: Guid, now: Ticks, actor: Option<string>)
    : (r: Result<SupportingDocument, UploadError>)
    ensures r == Failure(TooLarge) <==> file.length > MaxUploadBytes
    ensures r == Failure(NotAllowedType) <==>
      file.length <= MaxUploadBytes && LowerExtension(file.fileName) !in AllowedExtensions
    ensures r.Success? ==>
      && r.value.fileName == nameGuid + LowerExtension(file.fileName)
      && r.value.originalFileName == file.fileName
      && r.value.fileSize == file.length
      && r.value.contentType == file.contentType
      && r.value.uploadedBy == OrUnknown(actor)
      && r.value.uploadDate == now
      && r.value.id == docId
      && r.value.claimId == 0
  {
    if file.length > MaxUploadBytes then Failure(TooLarge)
    else
      var ext := LowerExtension(file.fileName);
      if ext !in AllowedExtensions then Failure(NotAllowedType)
      else Success(SupportingDocument(docId, 0, file.fileName, nameGuid + ext, file.length,
                                      file.contentType, None, now, OrUnknown(actor)))
  }

  /** The boundary: exactly 5 MiB is accepted, one byte more is refused even for an allowed type. */
  lemma UploadSizeBoundary(nameGuid: string, docId: Guid, now: Ticks, actor: Option<string>)
    ensures SaveUploadedFile(Upload("a.pdf", MaxUploadBytes, "application/pdf"), nameGuid, docId, now, actor).Success?
    ensures SaveUploadedFile(Upload("a.pdf", MaxUploadBytes + 1, "application/pdf"), nameGuid, docId, now, actor)
            == Failure(TooLarge)
  {
    ExtensionOfSuffix("a", "pdf");
    assert Lower(".pdf") == ".pdf";
  }

  /**
   * An accepted document is stored under a name whose extension is the
   * allowed one, so the download maps it to a specific MIME type rather
   * than the catch-all.
   */
  lemma AcceptedDocumentHasKnownType(file: Upload, nameGuid: string, docId: Guid, now: Ticks, actor: Option<string>)
    requires SaveUploadedFile(file, nameGuid, docId, now, actor).Success?
    ensures var doc := SaveUploadedFile(file, nameGuid, docId, now, actor).value;
      && doc.fileSize <= MaxUploadBytes
      && GetContentType(doc.fileName) == MimeOf(LowerExtension(file.fileName))
      && GetContentType(doc.fileName) != OctetStream
  {
    var ext := LowerExtension(file.fileName);
    AllowedExtensionShape(ext);
    var tail := ext[1..];
    assert ext == "." + tail;
    ExtensionOfSuffix(nameGuid, tail);
    assert nameGuid + ext == nameGuid + "." + tail;
  }

  /** Each allowed extension is a '.' and a lower-case tail free of dots and separators. */
  lemma AllowedExtensionShape(ext: string)
    requires ext in AllowedExtensions
    ensures |ext| >= 2 && ext[0] == '.' && Lower(ext) == ext
    ensures forall k :: 1 <= k < |ext| ==> ext[k] != '.' && !IsSeparator(ext[k])
  {
    assert ext == ".pdf" || ext == ".docx" || ext == ".xlsx" || ext == ".jpg" || ext == ".png";
  }

  /** What `Create` answers. */
  datatype CreateOutcome = InvalidForm | Challenge | Submitted(upload: Option<UploadError>)

  /**
   * `Create`: an invalid form is shown again and an anonymous request is
   * challenged, with no claim in either case; otherwise a Pending claim is
   * built from the form, owned by the signed-in user, carrying the upload
   * when the upload policy accepts it. A refused upload does not stop the
   * claim from being submitted.
   */
  method Create(form: ClaimViewModel, userId: Option<string>, claimId: Guid, now: Ticks,
                nameGuid: string, docId: Guid, actor: Option<string>)
    returns (outcome: CreateOutcome, claim: LegacyClaim.Claim?)
    ensures claim != null <==> outcome.Submitted?
    ensures outcome == InvalidForm <==> !form.IsValid()
    ensures outcome == Challenge <==> form.IsValid() && IsNullOrEmpty(userId)
    ensures claim != null ==> fresh(claim)
    ensures claim != null ==>
      var c := claim.State();
      && c.status == Pending
      && c.lecturerId == userId.value
      && c.totalAmount == form.hoursWorked * form.hourlyRate
      && c.hoursWorked == form.hoursWorked && c.hourlyRate == form.hourlyRate
      && c.month == form.month && c.additionalNotes == form.additionalNotes
      && c.submissionDate == now && c.id == claimId
      && c.statusHistory == [] && c.lecturer == null
      && c.approvalDate.None? && c.approvedBy.None? && c.approvalNotes.None?
      && |c.supportingDocuments| <= 1
      && (form.supportingDocument.None? ==> c.supportingDocuments == [] && outcome.upload.None?)
      && (form.supportingDocument.Some? ==>
            var saved := SaveUploadedFile(form.supportingDocument.value, nameGuid, docId, now, actor);
            if saved.Success? then c.supportingDocuments == [saved.value] && outcome.upload.None?
            else c.supportingDocuments == [] && outcome.upload == Some(saved.error))
  {
    if !form.IsValid() {
      return InvalidForm, null;
    }
    if IsNullOrEmpty(userId) {
      return Challenge, null;
    }
    claim := new LegacyClaim.Claim(claimId, userId.value, null, form.month, form.hoursWorked, form.hourlyRate,
                                   form.hoursWorked * form.hourlyRate, form.additionalNotes, Pending, now);
    var refused: Option<UploadError> := None;
    if form.supportingDocument.Some? {
      var saved := SaveUploadedFile(form.supportingDocument.value, nameGuid, docId, now, actor);
      if saved.Success? {
        claim.AddDocument(saved.value);
      } else {
        refused := Some(saved.error);
      }
    }
    outcome := Submitted(refused);
  }

  /**
   * The claim the signed-in lecturer owns with that id, as the
   * `FirstOrDefault(c => c.Id == id && c.LecturerId == userId)` lookup.
   */
  function FindOwnClaim(claims: seq<LegacyClaim.Claim>, claimId: Guid, userId: string): (r: Option<LegacyClaim.Claim>)
    ensures r.Some? ==> r.value in claims && r.value.id == claimId && r.value.lecturerId == userId
    ensures r.None? ==> forall c :: c in claims ==> !(c.id == claimId && c.lecturerId == userId)
  {
    if claims == [] then None
    else if claims[0].id == claimId && claims[0].lecturerId == userId then Some(claims[0])
    else FindOwnClaim(claims[1..], claimId, userId)
  }

  datatype UploadOutcome = UploadChallenge | UploadNotFound | UploadIgnored | UploadRefused(error: UploadError) | Attached

  /**
   * `UploadDocument`: only the owner's own claim is looked up; a missing or
   * empty file changes nothing; an accepted file is attached to the end of
   * that claim's documents with the claim's id.
   */
  method UploadDocument(claims: seq<LegacyClaim.Claim>, claimId: Guid, file: Option<Upload>, userId: Option<string>,
                        nameGuid: string, docId: Guid, now: Ticks, actor: Option<string>)
    returns (outcome: UploadOutcome)
    modifies set c | c in claims
    ensures outcome == UploadChallenge <==> IsNullOrEmpty(userId)
    ensures outcome == UploadNotFound <==> !IsNullOrEmpty(userId) && FindOwnClaim(claims, claimId, userId.value).None?
    ensures outcome == UploadIgnored <==>
      !IsNullOrEmpty(userId) && FindOwnClaim(claims, claimId, userId.value).Some?
      && (file.None? || file.value.length <= 0)
    ensures outcome.UploadRefused? || outcome == Attached ==>
      && !IsNullOrEmpty(userId) && FindOwnClaim(claims, claimId, userId.value).Some?
      && file.Some? && file.value.length > 0
    ensures outcome.UploadRefused? ==>
      SaveUploadedFile(file.value, nameGuid, docId, now, actor) == Failure(outcome.error)
    ensures outcome == Attached ==> SaveUploadedFile(file.value, nameGuid, docId, now, actor).Success?
    ensures outcome == Attached ==>
      var c := FindOwnClaim(claims, claimId, userId.value).value;
      var doc := SaveUploadedFile(file.value, nameGuid, docId, now, actor).value;
      c.State() == old(c.State()).(supportingDocuments := old(c.supportingDocuments) + [doc.(claimId := claimId)])
    ensures outcome != Attached ==> forall c :: c in claims ==> c.State() == old(c.State())
    ensures outcome == Attached ==> forall c :: c in claims && c != FindOwnClaim(claims, claimId, userId.value).value
                                               ==> c.State() == old(c.State())
  {
    if IsNullOrEmpty(userId) {
      return UploadChallenge;
    }
    var found := FindOwnClaim(claims, claimId, userId.value);
    if found.None? {
      return UploadNotFound;
    }
    if file.None? || file.value.length <= 0 {
      return UploadIgnored;
    }
    var saved := SaveUploadedFile(file.value, nameGuid, docId, now, actor);
    if saved.Failure? {
      return UploadRefused(saved.error);
    }
    found.value.AddDocument(saved.value.(claimId := claimId));
    outcome := Attached;
  }

  datatype DownloadOutcome = DocumentNotFound | Forbid | FileMissing | FileResult(contentType: string, downloadName: string)

  /** The action's own access rule: the claim's owner, a Programme Coordinator or an Academic Manager. */
  predicate MayAccess(c: LegacyClaim.LegacyState, userId: Option<string>, roles: set<UserRole>) {
    userId == Some(c.lecturerId) || ProgrammeCoordinator in roles || AcademicManager in roles
  }

  /**
   * `DownloadDocument` as a decision: the document lookup, the access rule
   * over the claim it belongs to, the on-disk existence check (an input),
   * then the file with its mapped type under its original name.
   */
  function DownloadDocument(doc: Option<SupportingDocument>, claims: seq<LegacyClaim.LegacyState>,
                            userId: Option<string>, roles: set<UserRole>, fileExists: bool): (r: DownloadOutcome)
    ensures r == DocumentNotFound <==> doc.None?
    ensures r == Forbid <==>
      doc.Some? && !(exists i :: 0 <= i < |claims| && claims[i].id == doc.value.claimId && MayAccess(claims[i], userId, roles))
    ensures r.FileResult? ==> fileExists && r.contentType == GetContentType(doc.value.fileName)
                              && r.downloadName == doc.value.originalFileName
  {
    if doc.None? then DocumentNotFound
    else if !(exists i :: 0 <= i < |claims| && claims[i].id == doc.value.claimId && MayAccess(claims[i], userId, roles))
    then Forbid
    else if !fileExists then FileMissing
    else FileResult(GetContentType(doc.value.fileName), doc.value.originalFileName)
  }

  /**
   * The action's access rule admits a coordinator or manager to any existing
   * claim's documents, and a lecturer only to their own.
   */
  lemma DownloadAccessByRole(doc: SupportingDocument, c: LegacyClaim.LegacyState, userId: Option<string>, roles: set<UserRole>)
    requires c.id == doc.claimId
    ensures ProgrammeCoordinator in roles || AcademicManager in roles ==>
      DownloadDocument(Some(doc), [c], userId, roles, true).FileResult?
    ensures roles <= {Lecturer, HR} && userId != Some(c.lecturerId) ==>
      DownloadDocument(Some(doc), [c], userId, roles, true) == Forbid
  {
    if ProgrammeCoordinator in roles || AcademicManager in roles {
      assert MayAccess([c][0], userId, roles);
    }
  }
}
