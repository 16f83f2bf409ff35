/** Media uploads: the checks a file must pass (size, then extension), the PUT with retries
    and back-off, and how the outcome of a single upload or of a batch is reported, error
    messages included. The presigned-URL request and every PUT are outcomes passed in. */
module Upload {
  import opened Wrappers
  import opened Text
  import Sequences

  /** `MAX_FILE_SIZE`: 500 MB in bytes. */
  const MaxFileSize: nat := 500 * 1024 * 1024

  /** `MAX_RETRY_ATTEMPTS`: PUT attempts per file. */
  const MaxRetryAttempts: nat := 3

  datatype MediaKind = Video | Audio | Image

  function KindName(k: MediaKind): string
  {
    match k
    case Video => "video"
    case Audio => "audio"
    case Image => "image"
  }

  /** `ALLOWED_FILE_TYPES`: the accepted extensions per kind, lower case. */
  function AllowedTypes(k: MediaKind): seq<string>
  {
    match k
    case Video => ["mp4", "mov", "avi"]
    case Audio => ["mp3", "wav", "m4a"]
    case Image => ["jpg", "jpeg", "png", "webp"]
  }

  /** `name.toLowerCase().split('.').pop()`: the lower-cased text after the last dot. */
  function Extension(name: string): (ext: string)
    ensures '.' !in ext && |ext| <= |name|
    ensures '.' !in name ==> ext == Lower(name)
    ensures |ext| < |name| ==> Lower(name)[|name| - |ext| - 1] == '.'
    ensures ext == Lower(name)[|name| - |ext|..]
  {
    AfterLast(Lower(name), '.')
  }

  /** `validateFileType`. */
  predicate ValidFileType(name: string, kind: MediaKind)
  {
    var ext := Extension(name);
    ext != "" && ext in AllowedTypes(kind)
  }

  /** `validateFileSize`. */
  predicate ValidFileSize(size: nat)
  {
    size <= MaxFileSize
  }

  /** A name ending in a dot and an allowed extension, in any case, passes the type check. */
  lemma ValidFileTypeOfDotted(name: string, kind: MediaKind, k: nat)
    requires k < |name| && Lower(name)[k] == '.' && Lower(name)[k + 1..] in AllowedTypes(kind)
    ensures ValidFileType(name, kind)
  {
    var l := Lower(name);
    var ext := l[k + 1..];
    AllowedTypeUndotted(ext, kind);
    assert l == l[..k] + ['.'] + ext;
    AfterLastOfSuffix(l[..k], '.', ext);
  }

  /** A name passes the type check only with an allowed extension, in any case, after a
      dot or as the whole name. */
  lemma ValidFileTypeMeans(name: string, kind: MediaKind)
    requires ValidFileType(name, kind)
    ensures Lower(name) in AllowedTypes(kind)
            || exists k :: 0 <= k < |name| && Lower(name)[k] == '.' && Lower(name)[k + 1..] in AllowedTypes(kind)
  {
    var ext := Extension(name);
    if |ext| < |name| {
      var k := |name| - |ext| - 1;
      assert Lower(name)[k] == '.' && Lower(name)[k + 1..] == ext;
    }
  }

  /** A name without a dot is its own extension: "MP4" passes as a video. */
  lemma ValidFileTypeOfUndotted(name: string, kind: MediaKind)
    requires '.' !in name
    ensures ValidFileType(name, kind) <==> Lower(name) in AllowedTypes(kind)
  {
    if Lower(name) in AllowedTypes(kind) {
      AllowedTypeUndotted(Lower(name), kind);
    }
  }

  /** The size limit is 500 MiB, inclusive. */
  lemma ValidFileSizeLimit()
    ensures ValidFileSize(524288000) && !ValidFileSize(524288001)
  {
  }

  /** Every allowed extension is a non-empty word without a dot. */
  lemma AllowedTypeUndotted(ext: string, kind: MediaKind)
    requires ext in AllowedTypes(kind)
    ensures '.' !in ext && ext != []
  {
  }

  /** `ALLOWED_FILE_TYPES[kind].join(', ')`. */
  function JoinComma(parts: seq<string>): string
  {
    if parts == [] then "" else if |parts| == 1 then parts[0] else parts[0] + ", " + JoinComma(parts[1..])
  }

  /** The size limit as written in messages: `MAX_FILE_SIZE / (1024 * 1024)` megabytes. */
  function MaxMegabytes(): string
  {
    NatToString(MaxFileSize / (1024 * 1024))
  }

  function SizeError(name: string): string
  {
    "File \"" + name + "\" exceeds maximum size of " + MaxMegabytes() + "MB"
  }

  function TypeError(name: string, kind: MediaKind): string
  {
    "File \"" + name + "\" has invalid type for " + KindName(kind) + ". Allowed types: " + JoinComma(AllowedTypes(kind))
  }

  /** `validateFile`: the size is checked before the type; `None` means the file passes. */
  function ValidateFile(name: string, size: nat, kind: MediaKind): (err: Option<string>)
    ensures err.None? <==> ValidFileSize(size) && ValidFileType(name, kind)
    ensures !ValidFileSize(size) ==> err == Some(SizeError(name))
    ensures ValidFileSize(size) && !ValidFileType(name, kind) ==> err == Some(TypeError(name, kind))
  {
    if !ValidFileSize(size) then Some(SizeError(name))
    else if !ValidFileType(name, kind) then Some(TypeError(name, kind))
    else None
  }

  // ---------------------------------------------------------------- PUT with retries

  /** What one PUT to the presigned URL does: succeed, answer with a non-OK status, or throw
      (a network failure) with a message. */
  datatype PutOutcome = PutOk | PutStatus(status: nat) | PutThrew(message: string)

  /** The message of a failed PUT. */
  function PutError(o: PutOutcome): string
    requires !o.PutOk?
  {
    if o.PutStatus? then "Upload failed with status " + NatToString(o.status) else o.message
  }

  /** `Math.pow(2, attempt - 1) * 1000`: the wait in milliseconds after failed attempt `attempt`. */
  function Pow2(n: nat): (p: nat)
    ensures p >= 1
  {
    if n == 0 then 1 else 2 * Pow2(n - 1)
  }

  /** The wait before retrying after attempt `attempt` (`Math.pow(2, attempt - 1) * 1000`):
      one second after the first attempt, doubling with each further one. */
  function RetryDelay(attempt: nat): (d: nat)
    requires attempt >= 1
    ensures attempt == 1 ==> d == 1000
    ensures attempt > 1 ==> d == 2 * RetryDelay(attempt - 1)
  {
    Pow2(attempt - 1) * 1000
  }

  /** What a run of `uploadToR2WithRetry` did: how many PUTs it made, the waits between
      them, and the error it finally threw, if any. */
  datatype RetryRun = RetryRun(attempts: nat, delays: seq<nat>, error: Option<string>)

  /** `uploadToR2WithRetry(url, file, attempt)`: `put(k)` is the outcome of attempt `k`. */
  function Retry(put: nat -> PutOutcome, attempt: nat): (r: RetryRun)
    requires 1 <= attempt <= MaxRetryAttempts
    ensures 1 <= r.attempts <= MaxRetryAttempts - attempt + 1
    ensures |r.delays| == r.attempts - 1
    ensures forall i :: 0 <= i < |r.delays| ==> r.delays[i] == RetryDelay(attempt + i)
    ensures forall k :: attempt <= k < attempt + r.attempts - 1 ==> !put(k).PutOk?
    ensures r.error.None? <==> put(attempt + r.attempts - 1).PutOk?
    ensures r.error.Some? ==> attempt + r.attempts - 1 == MaxRetryAttempts
                              && r.error == Some(PutError(put(MaxRetryAttempts)))
    decreases MaxRetryAttempts - attempt
  {
    var o := put(attempt);
    if o.PutOk? then RetryRun(1, [], None)
    else if attempt < MaxRetryAttempts then
      var rest := Retry(put, attempt + 1);
      RetryRun(rest.attempts + 1, [RetryDelay(attempt)] + rest.delays, rest.error)
    else RetryRun(1, [], Some(PutError(o)))
  }

  /** The back-off actually waits 1000 ms and then 2000 ms: at most three seconds in all,
      and never the four seconds a third retry would have waited. */
  lemma RetryWaits(put: nat -> PutOutcome)
    ensures var r := Retry(put, 1);
            && (forall i :: 0 <= i < |r.delays| ==> r.delays[i] == [1000, 2000][i])
            && (forall d :: d in r.delays ==> d != 4000)
            && (r.error.Some? ==> r.attempts == MaxRetryAttempts && r.delays == [1000, 2000])
  {
    var r := Retry(put, 1);
    assert RetryDelay(1) == 1000 && RetryDelay(2) == 2000;
    assert forall i :: 0 <= i < |r.delays| ==> r.delays[i] == [1000, 2000][i];
  }

  // ---------------------------------------------------------------- one upload

  datatype UploadRequest = UploadRequest(fileName: string, size: nat, compositionId: string, fieldPath: string, kind: MediaKind)

  datatype UploadResult = UploadResult(fieldPath: string, publicUrl: string, success: bool, error: Option<string>)

  datatype UrlPair = UrlPair(uploadUrl: string, publicUrl: string)

  /** The answer to the presigned-URL request: the `uploads` list (possibly missing), or
      the message of the error it threw. */
  datatype Presigned = Presigned(uploads: Option<seq<UrlPair>>) | PresignFailed(message: string)

  /** The phrase both presigned-URL failures share, which the error rewriting looks for. */
  const PresignMarker: string := "Failed to get" + " presigned URL"

  /** `uploadFile`'s error when the server returns no URL. */
  const NoUrlError: string := PresignMarker + " from server"

  /** `uploadBatch`'s error when the server returns no URLs. */
  const NoUrlsError: string := PresignMarker + "s from server"

  /** `uploadFile`'s rewriting of an error message, by the first matching phrase. */
  function FileErrorMessage(message: string, name: string): (m: string)
    ensures Contains(message, "exceeds maximum size") ==>
              m == "File too large: " + name + " (max " + MaxMegabytes() + "MB)"
    ensures !Contains(message, "exceeds maximum size") && Contains(message, "invalid type") ==>
              m == "Invalid file type: " + name
    ensures (!Contains(message, "exceeds maximum size") && !Contains(message, "invalid type")
             && !Contains(message, "Upload failed with status") && !Contains(message, PresignMarker)
             && !Contains(message, "fetch")) ==> m == message
    ensures !Contains(message, "exceeds maximum size") && !Contains(message, "invalid type")
            && Contains(message, "Upload failed with status") ==>
              m == "Upload failed for " + name + ". Please try again."
    ensures !Contains(message, "exceeds maximum size") && !Contains(message, "invalid type")
            && !Contains(message, "Upload failed with status") && Contains(message, PresignMarker) ==>
              m == "Server error: Unable to prepare upload for " + name
    ensures !Contains(message, "exceeds maximum size") && !Contains(message, "invalid type")
            && !Contains(message, "Upload failed with status") && !Contains(message, PresignMarker)
            && Contains(message, "fetch") ==>
              m == "Network error: Unable to upload " + name
  {
    if Contains(message, "exceeds maximum size") then "File too large: " + name + " (max " + MaxMegabytes() + "MB)"
    else if Contains(message, "invalid type") then "Invalid file type: " + name
    else if Contains(message, "Upload failed with status") then "Upload failed for " + name + ". Please try again."
    else if Contains(message, PresignMarker) then "Server error: Unable to prepare upload for " + name
    else if Contains(message, "fetch") then "Network error: Unable to upload " + name
    else message
  }

  /** The message `uploadFile` catches, if any: the validation error, the presigned-URL
      failure, or the last PUT's error. */
  function UploadFileError(req: UploadRequest, presigned: Presigned, put: nat -> PutOutcome): Option<string>
  {
    var invalid := ValidateFile(req.fileName, req.size, req.kind);
    if invalid.Some? then invalid
    else if presigned.PresignFailed? then Some(presigned.message)
    else if presigned.uploads.None? || |presigned.uploads.value| == 0 then Some(NoUrlError)
    else Retry(put, 1).error
  }

  /** `uploadFile`: success with the public URL, or failure with an empty URL and the
      rewritten message; the field path is always the request's. */
  function UploadFile(req: UploadRequest, presigned: Presigned, put: nat -> PutOutcome): (r: UploadResult)
    ensures r.fieldPath == req.fieldPath
    ensures r.success <==> ValidFileSize(req.size) && ValidFileType(req.fileName, req.kind)
                           && presigned.Presigned? && presigned.uploads.Some? && |presigned.uploads.value| > 0
                           && (exists k :: 1 <= k <= MaxRetryAttempts && put(k).PutOk?
                                            && forall j :: 1 <= j < k ==> !put(j).PutOk?)
    ensures r.success ==> r.publicUrl == presigned.uploads.value[0].publicUrl && r.error.None?
    ensures !r.success ==> r.publicUrl == ""
                           && r.error == Some(FileErrorMessage(UploadFileError(req, presigned, put).value, req.fileName))
  {
    RetrySucceedsMeans(put);
    var err := UploadFileError(req, presigned, put);
    if err.None? then UploadResult(req.fieldPath, presigned.uploads.value[0].publicUrl, true, None)
    else UploadResult(req.fieldPath, "", false, Some(FileErrorMessage(err.value, req.fileName)))
  }

  /** The PUT run from the first attempt succeeds exactly when some attempt succeeds after
      every earlier one failed. */
  lemma RetrySucceedsMeans(put: nat -> PutOutcome)
    ensures Retry(put, 1).error.None? <==>
              exists k :: 1 <= k <= MaxRetryAttempts && put(k).PutOk? && forall j :: 1 <= j < k ==> !put(j).PutOk?
  {
    var run := Retry(put, 1);
    if run.error.None? {
      assert put(run.attempts).PutOk?;
    } else {
      RetryFailedEverywhere(put);
    }
  }

  lemma RetryFailedEverywhere(put: nat -> PutOutcome)
    requires Retry(put, 1).error.Some?
    ensures forall k :: 1 <= k <= MaxRetryAttempts ==> !put(k).PutOk?
  {
  }

  /** A file whose name holds "exceeds maximum size" and that fails only the type check is
      reported as too large: the rewrite looks for the phrase anywhere in the message, file
      name included. `PhraseNameIsNoVideo` and `ContainsSelf` show such a file. */
  lemma TypeFailureReadsAsSizeFailure(req: UploadRequest, presigned: Presigned, put: nat -> PutOutcome)
    requires ValidFileSize(req.size) && !ValidFileType(req.fileName, req.kind)
    requires Contains(req.fileName, "exceeds maximum size")
    ensures UploadFile(req, presigned, put).error
            == Some("File too large: " + req.fileName + " (max " + MaxMegabytes() + "MB)")
  {
    var tail := "\" has invalid type for " + KindName(req.kind) + ". Allowed types: " + JoinComma(AllowedTypes(req.kind));
    ContainsConcat("File \"", req.fileName, tail, "exceeds maximum size");
    assert TypeError(req.fileName, req.kind) == "File \"" + req.fileName + tail;
  }

  /** A video named "exceeds maximum size" fails the type check. */
  lemma PhraseNameIsNoVideo()
    ensures !ValidFileType("exceeds maximum size", Video)
  {
    var name := "exceeds maximum size";
    assert forall i :: 0 <= i < |name| ==> name[i] != '.';
    assert |Extension(name)| == 20;
  }

  // ---------------------------------------------------------------- batches

  /** `validateFile` on a request. */
  function Check(r: UploadRequest): Option<string>
  {
    ValidateFile(r.fileName, r.size, r.kind)
  }

  /** The error thrown by the validation loop: that of the first request that fails. */
  function FirstInvalid(requests: seq<UploadRequest>): (err: Option<string>)
    ensures err.None? <==> forall i :: 0 <= i < |requests| ==> Check(requests[i]).None?
    ensures err.Some? ==> exists i :: 0 <= i < |requests| && err == Check(requests[i])
                                      && forall j :: 0 <= j < i ==> Check(requests[j]).None?
  {
    var err := Sequences.FirstSome(requests, Check);
    if err.Some? then Sequences.FirstSomeIsFirst(requests, Check); err else err
  }

  /** The validation loop of `uploadBatch`: the requests are checked in order and the first
      failure is thrown. */
  method ValidateAll(requests: seq<UploadRequest>) returns (err: Option<string>)
    ensures err == FirstInvalid(requests)
  {
    var i := 0;
    while i < |requests|
      invariant 0 <= i <= |requests|
      invariant FirstInvalid(requests) == FirstInvalid(requests[i..])
    {
      var e := Check(requests[i]);
      if e.Some? {
        return e;
      }
      assert requests[i..][1..] == requests[i + 1..];
      i := i + 1;
    }
    assert requests[i..] == [];
    err := None;
  }

  /** `requests.find(p)`. */
  function Find(requests: seq<UploadRequest>, p: UploadRequest -> bool): (r: Option<UploadRequest>)
    ensures r.Some? ==> r.value in requests && p(r.value)
    ensures r.None? ==> forall i :: 0 <= i < |requests| ==> !p(requests[i])
    ensures r.Some? ==> exists i :: IsFirstMatch(requests, p, i) && requests[i] == r.value
  {
    if requests == [] then None
    else if p(requests[0]) then
      assert IsFirstMatch(requests, p, 0);
      Some(requests[0])
    else
      var r := Find(requests[1..], p);
      if r.Some? then
        var i :| IsFirstMatch(requests[1..], p, i) && requests[1..][i] == r.value;
        assert IsFirstMatch(requests, p, i + 1);
        r
      else r
  }

  /** `i` is the first index whose request satisfies `p`. */
  predicate IsFirstMatch(requests: seq<UploadRequest>, p: UploadRequest -> bool, i: int)
  {
    0 <= i < |requests| && p(requests[i]) && forall j :: 0 <= j < i ==> !p(requests[j])
  }

  /** The request is over the size limit. */
  predicate TooLarge(r: UploadRequest)
  {
    !ValidFileSize(r.size)
  }

  /** The request's extension is not allowed for its kind. */
  predicate WrongType(r: UploadRequest)
  {
    !ValidFileType(r.fileName, r.kind)
  }

  /** The message every result carries when validation or the presigned-URL request fails:
      it names the first too-large (or wrongly typed) file, if one can be found. */
  function BatchErrorMessage(message: string, requests: seq<UploadRequest>): (m: string)
    ensures Contains(message, "exceeds maximum size") ==>
              forall i :: IsFirstMatch(requests, TooLarge, i) ==>
                m == "File too large: " + requests[i].fileName + " (max " + MaxMegabytes() + "MB)"
    ensures Contains(message, "exceeds maximum size") && (forall i :: 0 <= i < |requests| ==> !TooLarge(requests[i])) ==>
              m == message
    ensures !Contains(message, "exceeds maximum size") && Contains(message, "invalid type") ==>
              forall i :: IsFirstMatch(requests, WrongType, i) ==> m == "Invalid file type: " + requests[i].fileName
    ensures !Contains(message, "exceeds maximum size") && Contains(message, "invalid type")
            && (forall i :: 0 <= i < |requests| ==> !WrongType(requests[i])) ==>
              m == message
    ensures !Contains(message, "exceeds maximum size") && !Contains(message, "invalid type")
            && Contains(message, PresignMarker) ==>
              m == "Server error: Unable to prepare uploads"
    ensures !Contains(message, "exceeds maximum size") && !Contains(message, "invalid type")
            && !Contains(message, PresignMarker) ==>
              m == message
  {
    if Contains(message, "exceeds maximum size") then
      var failed := Find(requests, TooLarge);
      if failed.Some? then
        var k :| IsFirstMatch(requests, TooLarge, k) && requests[k] == failed.value;
        assert forall i :: IsFirstMatch(requests, TooLarge, i) ==> i == k;
        "File too large: " + failed.value.fileName + " (max " + MaxMegabytes() + "MB)" else message
    else if Contains(message, "invalid type") then
      var failed := Find(requests, WrongType);
      if failed.Some? then
        var k :| IsFirstMatch(requests, WrongType, k) && requests[k] == failed.value;
        assert forall i :: IsFirstMatch(requests, WrongType, i) ==> i == k;
        "Invalid file type: " + failed.value.fileName else message
    else if Contains(message, PresignMarker) then "Server error: Unable to prepare uploads"
    else message
  }

  /** The message a single PUT failure gets inside a batch. */
  function ItemErrorMessage(message: string, name: string): (m: string)
    ensures Contains(message, "Upload failed with status") ==>
              m == "Upload failed for " + name + ". Please try again."
    ensures !Contains(message, "Upload failed with status") && Contains(message, "fetch") ==>
              m == "Network error: Unable to upload " + name
    ensures !Contains(message, "Upload failed with status") && !Contains(message, "fetch") ==> m == message
  {
    if Contains(message, "Upload failed with status") then "Upload failed for " + name + ". Please try again."
    else if Contains(message, "fetch") then "Network error: Unable to upload " + name
    else message
  }

  /** The error reading `uploadUrl` from a missing entry of the presigned list. */
  const MissingUrlError: string := "Cannot read" + " properties" + " of undefined" + " (reading" + " 'uploadUrl')"

  /** Characters the missing-entry error does not use. */
  lemma MissingUrlErrorLacks(c: char)
    requires c == 'w' || c == 'c'
    ensures c !in MissingUrlError
  {
  }

  /** The missing-entry error matches neither rewording rule, so it reaches the result
      word for word. */
  lemma MissingUrlErrorKept(name: string)
    ensures ItemErrorMessage(MissingUrlError, name) == MissingUrlError
  {
    MissingUrlErrorLacks('w');
    MissingUrlErrorLacks('c');
    assert "Upload failed with status"[14] == 'w' && "fetch"[3] == 'c';
    NotContainsByChar(MissingUrlError, "Upload failed with status", 14);
    NotContainsByChar(MissingUrlError, "fetch", 3);
  }

  /** The result for request `i` once the URLs are known; `put(i, k)` is the outcome of
      attempt `k` for request `i`. */
  function ItemResult(req: UploadRequest, uploads: seq<UrlPair>, i: nat, put: (nat, nat) -> PutOutcome): (r: UploadResult)
    ensures r.fieldPath == req.fieldPath
    ensures i >= |uploads| ==> !r.success && r.publicUrl == "" && r.error == Some(MissingUrlError)
    ensures i < |uploads| ==>
              (r.success <==> Retry((k: nat) => put(i, k), 1).error.None?)
              && (r.success ==> r.publicUrl == uploads[i].publicUrl && r.error.None?)
              && (!r.success ==> r.publicUrl == ""
                                 && r.error == Some(ItemErrorMessage(Retry((k: nat) => put(i, k), 1).error.value, req.fileName)))
  {
    if i >= |uploads| then
      MissingUrlErrorKept(req.fileName);
      UploadResult(req.fieldPath, "", false, Some(ItemErrorMessage(MissingUrlError, req.fileName)))
    else
      var run := Retry((k: nat) => put(i, k), 1);
      if run.error.None? then UploadResult(req.fieldPath, uploads[i].publicUrl, true, None)
      else UploadResult(req.fieldPath, "", false, Some(ItemErrorMessage(run.error.value, req.fileName)))
  }

  /** The message the outer `catch` of `uploadBatch` receives, if any: the first validation
      error, the presigned-URL failure, or the complaint about an empty URL list. */
  function BatchCaught(requests: seq<UploadRequest>, presigned: Presigned): (caught: Option<string>)
    ensures FirstInvalid(requests).Some? ==> caught == FirstInvalid(requests)
    ensures FirstInvalid(requests).None? && presigned.PresignFailed? ==> caught == Some(presigned.message)
    ensures caught.None? <==> FirstInvalid(requests).None? && presigned.Presigned?
                              && presigned.uploads.Some? && |presigned.uploads.value| > 0
  {
    var fail := FirstInvalid(requests);
    if fail.Some? then fail
    else if presigned.PresignFailed? then Some(presigned.message)
    else if presigned.uploads.None? || |presigned.uploads.value| == 0 then Some(NoUrlsError)
    else None
  }

  /** An empty or missing URL list reaches every request as the same server error. */
  lemma EmptyUrlListMessage(requests: seq<UploadRequest>, presigned: Presigned)
    requires FirstInvalid(requests).None? && presigned.Presigned?
    requires presigned.uploads.None? || |presigned.uploads.value| == 0
    ensures BatchErrorMessage(BatchCaught(requests, presigned).value, requests) == "Server error: Unable to prepare uploads"
  {
    SizePhraseAbsent();
    ContainsPrefix(PresignMarker, "s from server");
  }

  /** `uploadBatch`. No request, no server call and no result. Otherwise one result per
      request, in order and with its field path: when something is caught before the
      uploads start, every result is the same failure; otherwise each request's own upload
      decides its result. */
  method UploadBatch(requests: seq<UploadRequest>, presigned: Presigned, put: (nat, nat) -> PutOutcome)
    returns (results: seq<UploadResult>)
    ensures |results| == |requests|
    ensures forall i :: 0 <= i < |results| ==> results[i].fieldPath == requests[i].fieldPath
    ensures BatchCaught(requests, presigned).Some? ==> forall i :: 0 <= i < |results| ==>
              results[i] == UploadResult(requests[i].fieldPath, "", false,
                                         Some(BatchErrorMessage(BatchCaught(requests, presigned).value, requests)))
    ensures BatchCaught(requests, presigned).None? ==> forall i :: 0 <= i < |results| ==>
              results[i] == ItemResult(requests[i], presigned.uploads.value, i, put)
  {
    if |requests| == 0 {
      return [];
    }
    var caught := CatchBeforeUploads(requests, presigned);
    if caught.Some? {
      var message := BatchErrorMessage(caught.value, requests);
      results := seq(|requests|, i requires 0 <= i < |requests| => UploadResult(requests[i].fieldPath, "", false, Some(message)));
      return;
    }
    var uploads := presigned.uploads.value;
    results := seq(|requests|, i requires 0 <= i < |requests| => ItemResult(requests[i], uploads, i, put));
  }

  /** The steps of `uploadBatch` before any upload starts: validation in order, then the
      presigned-URL request, then the check that URLs came back. */
  method CatchBeforeUploads(requests: seq<UploadRequest>, presigned: Presigned) returns (caught: Option<string>)
    ensures caught == BatchCaught(requests, presigned)
  {
    caught := ValidateAll(requests);
    if caught.None? {
      if presigned.PresignFailed? {
        caught := Some(presigned.message);
      } else if presigned.uploads.None? || |presigned.uploads.value| == 0 {
        caught := Some(NoUrlsError);
      }
    }
  }

  /** The presigned-URL failure message does not mention size or type. */
  lemma SizePhraseAbsent()
    ensures !Contains(NoUrlsError, "exceeds maximum size")
    ensures !Contains(NoUrlsError, "invalid type")
  {
    assert 'x' !in NoUrlsError && 'y' !in NoUrlsError;
    assert "exceeds maximum size"[1] == 'x' && "invalid type"[9] == 'y';
    NotContainsByChar(NoUrlsError, "exceeds maximum size", 1);
    NotContainsByChar(NoUrlsError, "invalid type", 9);
  }

}
