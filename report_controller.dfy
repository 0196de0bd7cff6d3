/** TrafficReportController.java: the REST endpoints under /api/traffic-reports. Each handler
    resolves the signed-in user, calls the report service, awards points, and maps an exception
    to a response. The principal is the signed-in user's id, or None when there is none; the
    clock, the random UUID of an upload and the outcome of the bucket write are parameters. */
module ReportEndpoints {
  import opened Wrappers
  import opened Text
  import opened Entities
  import opened TimeFormat
  import opened ReportQueries
  import opened VoteQueries
  import opened ReportLedger
  import opened UserQueries
  import opened UserAccounts
  import opened ImageStorage

  /** A response: 200 with a body, 400 with a message, 404 with no body, 500 with a message,
      or the authentication entry point's answer to a request that method security refused
      before the handler ran. */
  datatype Response<T> =
    | Success(body: T)
    | BadRequest(message: string)
    | NotFound
    | InternalServerError(message: string)
    | Unauthorized

  /** The body of a successful image upload. */
  datatype ImageUploaded = ImageUploaded(message: string, imageUrl: string)

  /** The body of GET /{reportId}/image. */
  datatype ImageInfo = ImageInfo(reportId: int, imageUrl: Option<string>, hasImage: bool)

  const ReportPoints: int := 5
  const VotePoints: int := 1
  const DefaultRecentHours: int := 24

  const UserNotFoundMessage: string := "User not found"
  const ReportDeletedMessage: string := "Report deleted successfully"
  const ImageReportNotFoundMessage: string := "Traffic report not found"
  const ImageUploadedMessage: string := "Image uploaded successfully"
  const ImageUploadFailedMessage: string := "Failed to upload image"
  /** The message of the 400 the framework answers when the required "file" part is absent. */
  const MissingFilePartMessage: string := "Required part 'file' is not present."
  /** The message of the NullPointerException a missing principal raises (the JVM's helpful
      message). */
  const NullPrincipalMessage: string :=
    "Cannot invoke \"com.raastabuzz.security.UserPrincipal.getId()\" because \"userPrincipal\" is null"
  /** What the framework answers for an exception a handler lets escape. */
  const UnhandledErrorMessage: string := "Internal Server Error"

  /** The body of every caught exception: "Error: " and the exception's message. */
  function ErrorBody(message: string): (b: string)
    ensures StartsWith(b, "Error: ") && b[7..] == message
  {
    "Error: " + message
  }

  /** The caller's row in the users table: none for a missing principal or an unknown id. */
  function CallerIndex(users: seq<User>, principal: Option<int>): (k: Option<nat>)
    ensures k.Some? ==> principal.Some? && k.value < |users| && users[k.value].id == principal.value
    ensures k.None? <==> principal.None? || forall i :: 0 <= i < |users| ==> users[i].id != principal.value
  {
    if principal.None? then None else FindUserIndex(users, principal.value)
  }

  /** The 400 a handler answers when it cannot resolve the caller. */
  function CallerFailure<T>(principal: Option<int>): (r: Response<T>)
    ensures r.BadRequest? && StartsWith(r.message, "Error: ")
    ensures principal.Some? ==> r.message == "Error: User not found"
  {
    if principal.None? then BadRequest(ErrorBody(NullPrincipalMessage)) else BadRequest(ErrorBody(UserNotFoundMessage))
  }

  /** The 400 a service exception becomes. */
  function ServiceFailure<T>(e: ServiceError): (r: Response<T>)
    ensures r.BadRequest? && StartsWith(r.message, "Error: ") && r.message[7..] == ErrorMessage(e)
  {
    BadRequest(ErrorBody(ErrorMessage(e)))
  }

  /** The users table after `points` are added to the k-th user. */
  function Award(users: seq<User>, k: nat, points: int): (r: seq<User>)
    requires k < |users|
    ensures |r| == |users| && r[k].points == users[k].points + points
    ensures r[k] == users[k].(points := r[k].points)
    ensures forall i :: 0 <= i < |users| && i != k ==> r[i] == users[i]
  {
    users[k := users[k].(points := users[k].points + points)]
  }

  /** An award of p points adds exactly p to the points held by all users together. */
  lemma {:induction false} AwardAddsToTotal(users: seq<User>, k: nat, points: int)
    requires k < |users|
    ensures TotalPoints(Award(users, k, points)) == TotalPoints(users) + points
  {
    if k == 0 {
      assert Award(users, k, points)[1..] == users[1..];
    } else {
      AwardAddsToTotal(users[1..], k - 1, points);
      assert Award(users, k, points)[1..] == Award(users[1..], k - 1, points);
    }
  }

  /** The points held by all users together. */
  function TotalPoints(users: seq<User>): int
  {
    if |users| == 0 then 0 else users[0].points + TotalPoints(users[1..])
  }

  /** The `since` of GET /recent: `hours` (24 when absent) before now. */
  function RecentSince(now: int, hours: Option<int>): (since: int)
    ensures since == now - hours.GetOr(DefaultRecentHours) * MsPerHour
  {
    now - hours.GetOr(DefaultRecentHours) * MsPerHour
  }

  /** With the default window, GET /recent returns the active reports created at most 24 hours
      ago, the boundary instant included, newest first. */
  lemma DefaultRecentWindow(reports: seq<TrafficReport>, now: int)
    ensures var r := FindRecentReports(reports, RecentSince(now, None));
            && (forall x :: x in r <==> x in reports && x.active && InServerWindow(x.createdAt, now, 24))
            && NewestFirst(r)
  {
  }

  /** getTrafficReportImage as written. Map.of refuses a null value, so for a report without an
      image the handler throws and the request ends in a 500; otherwise it returns the id, the
      URL, and whether that URL is non-empty. */
  function ImageInfoAsWritten(reports: seq<TrafficReport>, reportId: int): (r: Response<ImageInfo>)
    ensures FindReportIndex(reports, reportId).None? ==> r == BadRequest(ImageReportNotFoundMessage)
    ensures r.InternalServerError? <==>
              exists i :: 0 <= i < |reports| && reports[i].id == reportId && reports[i].imageUrl.None?
                          && forall j :: 0 <= j < i ==> reports[j].id != reportId
  {
    match FindReportIndex(reports, reportId)
    case None => BadRequest(ImageReportNotFoundMessage)
    case Some(k) =>
      var url := reports[k].imageUrl;
      if url.None? then InternalServerError(UnhandledErrorMessage)
      else Success(ImageInfo(reports[k].id, url, url.value != ""))
  }

  /** getTrafficReportImage as evidently intended: a report without an image answers with no
      URL and hasImage = false. It never fails with a 500, answers 200 exactly for a stored id,
      and hasImage holds exactly when the URL is present and non-empty. */
  function ImageInfoResponse(reports: seq<TrafficReport>, reportId: int): (r: Response<ImageInfo>)
    ensures !r.InternalServerError? && !r.NotFound?
    ensures r.Success? <==> exists i :: 0 <= i < |reports| && reports[i].id == reportId
    ensures r.BadRequest? ==> r.message == ImageReportNotFoundMessage
    ensures r.Success? ==>
              && r.body.reportId == reportId
              && (r.body.hasImage <==> r.body.imageUrl.Some? && r.body.imageUrl.value != "")
              && exists i :: 0 <= i < |reports| && reports[i].id == reportId
                             && reports[i].imageUrl == r.body.imageUrl
  {
    match FindReportIndex(reports, reportId)
    case None => BadRequest(ImageReportNotFoundMessage)
    case Some(k) =>
      var url := reports[k].imageUrl;
      Success(ImageInfo(reports[k].id, url, url.Some? && url.value != ""))
  }

  /** The two agree except on a stored report without an image. */
  lemma ImageInfoVersionsAgree(reports: seq<TrafficReport>, reportId: int)
    ensures ImageInfoAsWritten(reports, reportId) != ImageInfoResponse(reports, reportId) <==>
              ImageInfoAsWritten(reports, reportId).InternalServerError?
  {
  }

  /** The discrepancy on a concrete input: a report created without an image. As written the
      request fails with a 500; the intended answer is 200 with hasImage = false. Every report
      created from a request without an image URL is such a report. */
  lemma ImageInfoNullUrlFinding(request: ReportRequest, now: int)
    requires request.imageUrl.None?
    ensures var r := CreatedReport(request, 1, 7, now);
            && ImageInfoAsWritten([r], 1) == InternalServerError(UnhandledErrorMessage)
            && ImageInfoResponse([r], 1) == Success(ImageInfo(1, None, false))
  {
    var r := CreatedReport(request, 1, 7, now);
    assert FindReportIndex([r], 1) == Some(0) by {
      assert [r][0].id == 1;
    }
  }

  /** The outcome of storing an image for the k-th report, from the tables and bucket before to
      those after: a failed upload answers 500 and changes neither; a stored one answers 200 with
      the URL, adds the object to the bucket and sets the report's image URL. */
  predicate StoredImage(reports: seq<TrafficReport>, k: nat, objects: seq<string>,
                        reports': seq<TrafficReport>, objects': seq<string>, bucket: string,
                        reportId: int, file: Option<ImageFile>, uuid: string, writeSucceeds: bool,
                        resp: Response<ImageUploaded>)
    requires k < |reports|
  {
    match UploadOutcome(bucket, file, reportId, uuid, writeSucceeds)
    case Err(_) =>
      resp == InternalServerError(ImageUploadFailedMessage) && reports' == reports && objects' == objects
    case Ok(url) =>
      && resp == Success(ImageUploaded(ImageUploadedMessage, url))
      && objects' == objects + [StoredName(file.value, reportId, uuid)]
      && reports' == reports[k := reports[k].(imageUrl := Some(url))]
  }

  /** userService.updateUserPoints called with the k-th stored user, as the handlers call it
      with the user they looked up: only that user's points change. */
  method AwardStoredUser(accounts: UserService, k: nat, points: int)
    requires accounts.Valid() && k < |accounts.users|
    modifies accounts
    ensures accounts.Valid()
    ensures accounts.users == Award(old(accounts.users), k, points)
    ensures accounts.nextUserId == old(accounts.nextUserId)
  {
    var user := accounts.users[k];
    ghost var before := accounts.users;
    StoredUserIsFound(before, accounts.nextUserId, k);
    var saved := accounts.UpdateUserPoints(user, points);
    assert saved == before[k].(points := before[k].points + points);
  }

  /** The controller with the services it calls. */
  class TrafficReportController {
    const service: TrafficReportService
    const accounts: UserService
    const storage: FirebaseStorage

    ghost predicate Valid()
      reads this, service, accounts
    {
      service.Valid() && accounts.Valid()
    }

    constructor(service: TrafficReportService, accounts: UserService, storage: FirebaseStorage)
      requires service.Valid() && accounts.Valid()
      ensures Valid()
      ensures this.service == service && this.accounts == accounts && this.storage == storage
    {
      this.service := service;
      this.accounts := accounts;
      this.storage := storage;
    }

    /** GET /: the active reports, newest first. */
    method GetAllReports() returns (resp: Response<seq<TrafficReport>>)
      ensures resp.Success?
      ensures forall x :: x in resp.body <==> x in service.reports && x.active
      ensures NewestFirst(resp.body)
    {
      resp := Success(FindActiveNewestFirst(service.reports));
    }

    /** GET /{id}: the stored report with that id, soft-deleted or not, or 404. */
    method GetReportById(id: int) returns (resp: Response<TrafficReport>)
      ensures resp.Success? || resp.NotFound?
      ensures resp.NotFound? <==> forall i :: 0 <= i < |service.reports| ==> service.reports[i].id != id
      ensures resp.Success? ==> resp.body in service.reports && resp.body.id == id
    {
      var found := FindReportIndex(service.reports, id);
      if found.None? {
        return NotFound;
      }
      resp := Success(service.reports[found.value]);
    }

    /** GET /recent: the active reports created at or after `hours` (default 24) before now,
        newest first. */
    method GetRecentReports(hours: Option<int>, now: int) returns (resp: Response<seq<TrafficReport>>)
      ensures resp.Success?
      ensures forall x :: x in resp.body <==>
                x in service.reports && x.active && x.createdAt >= now - hours.GetOr(24) * MsPerHour
      ensures NewestFirst(resp.body)
    {
      resp := Success(FindRecentReports(service.reports, RecentSince(now, hours)));
    }

    /** POST /: a caller that cannot be resolved gets a 400 and nothing changes. Otherwise the
        service's outcome is answered: a created report earns its creator 5 points, a refused
        one earns nothing and changes nothing. */
    method CreateReport(request: ReportRequest, principal: Option<int>, now: int)
      returns (resp: Response<TrafficReport>)
      requires Valid()
      modifies service, accounts
      ensures Valid()
      ensures match CallerIndex(old(accounts.users), principal)
              case None => resp == CallerFailure(principal) && unchanged(service, accounts)
              case Some(k) =>
                var r := CreatedReport(request, old(service.nextReportId), principal.value, now);
                if ValidTrafficReport(r) then
                  && resp == Success(r)
                  && service.reports == old(service.reports) + [r]
                  && service.votes == old(service.votes)
                  && service.broadcasts == old(service.broadcasts) + [r]
                  && accounts.users == Award(old(accounts.users), k, ReportPoints)
                else
                  resp == ServiceFailure(ConstraintViolation(ValidationMessage)) && unchanged(service, accounts)
    {
      var found := CallerIndex(accounts.users, principal);
      if found.None? {
        return CallerFailure(principal);
      }
      var user := accounts.users[found.value];
      var result := service.CreateReport(request, user, now);
      if result.Err? {
        return ServiceFailure(result.error);
      }
      AwardStoredUser(accounts, found.value, ReportPoints);
      resp := Success(result.value);
    }

    /** PUT /{id}: @PreAuthorize admits only a signed-in CONTRIBUTOR or MODERATOR, and every
        user has one of those roles, so an anonymous request is refused before the body and
        changes nothing. Otherwise the service's outcome for the resolved caller is mapped to
        200 or 400; no points change. */
    method UpdateReport(id: int, request: ReportRequest, principal: Option<int>)
      returns (resp: Response<TrafficReport>)
      requires Valid()
      modifies service
      ensures Valid()
      ensures service.votes == old(service.votes)
      ensures principal.None? ==> resp == Unauthorized && unchanged(service)
      ensures principal.Some? ==>
              match CallerIndex(accounts.users, principal)
              case None => resp == CallerFailure(principal) && unchanged(service)
              case Some(k) =>
                match UpdateDecision(old(service.reports), id, request, accounts.users[k])
                case Err(e) => resp == ServiceFailure(e) && unchanged(service)
                case Ok(u) =>
                  && resp == Success(u)
                  && service.reports == old(service.reports)[FindReportIndex(old(service.reports), id).value := u]
                  && service.broadcasts == old(service.broadcasts) + [u]
    {
      if principal.None? {
        return Unauthorized;
      }
      var found := CallerIndex(accounts.users, principal);
      if found.None? {
        return CallerFailure(principal);
      }
      var result := service.UpdateReport(id, request, accounts.users[found.value]);
      if result.Err? {
        return ServiceFailure(result.error);
      }
      resp := Success(result.value);
    }

    /** DELETE /{id}: gated like PUT, so an anonymous request is refused before the body and
        changes nothing; otherwise the soft delete for the resolved caller, and success answers
        with a message. */
    method DeleteReport(id: int, principal: Option<int>) returns (resp: Response<string>)
      requires Valid()
      modifies service
      ensures Valid()
      ensures service.votes == old(service.votes)
      ensures principal.None? ==> resp == Unauthorized && unchanged(service)
      ensures principal.Some? ==>
              match CallerIndex(accounts.users, principal)
              case None => resp == CallerFailure(principal) && unchanged(service)
              case Some(k) =>
                match DeleteDecision(old(service.reports), id, accounts.users[k])
                case Err(e) => resp == ServiceFailure(e) && unchanged(service)
                case Ok(d) =>
                  && resp == Success(ReportDeletedMessage)
                  && service.reports == old(service.reports)[FindReportIndex(old(service.reports), id).value := d]
                  && service.broadcasts == old(service.broadcasts) + [d]
    {
      if principal.None? {
        return Unauthorized;
      }
      var found := CallerIndex(accounts.users, principal);
      if found.None? {
        return CallerFailure(principal);
      }
      var result := service.DeleteReport(id, accounts.users[found.value]);
      if result.Err? {
        return ServiceFailure(result.error);
      }
      resp := Success(ReportDeletedMessage);
    }

    /** POST /{id}/vote: every counted vote, first, repeated or changed, earns the voter 1
        point; a vote on an unknown report earns nothing and changes nothing. */
    method VoteOnReport(reportId: int, t: VoteType, principal: Option<int>, now: int)
      returns (resp: Response<TrafficReport>)
      requires Valid()
      modifies service, accounts
      ensures Valid()
      ensures match CallerIndex(old(accounts.users), principal)
              case None => resp == CallerFailure(principal) && unchanged(service, accounts)
              case Some(k) =>
                match FindReportIndex(old(service.reports), reportId)
                case None => resp == ServiceFailure(ReportNotFound(reportId)) && unchanged(service, accounts)
                case Some(j) =>
                  var previous := FindByUserAndTrafficReport(old(service.votes), principal.value, reportId);
                  var c := CountVote(old(service.reports)[j], previous, t);
                  && resp == Success(c)
                  && service.reports == old(service.reports)[j := c]
                  && service.votes == RecordVote(old(service.votes), principal.value, reportId, t,
                                                 old(service.nextVoteId), now)
                  && service.broadcasts == old(service.broadcasts) + [c]
                  && accounts.users == Award(old(accounts.users), k, VotePoints)
    {
      var found := CallerIndex(accounts.users, principal);
      if found.None? {
        return CallerFailure(principal);
      }
      var user := accounts.users[found.value];
      var result := service.VoteOnReport(reportId, t, user, now);
      if result.Err? {
        return ServiceFailure(result.error);
      }
      AwardStoredUser(accounts, found.value, VotePoints);
      resp := Success(result.value);
    }

    /** POST /{reportId}/image: a request without the required "file" part is refused by the
        framework with a 400 before the handler runs; an unknown report gets a 400 before
        storage is touched; otherwise the image is stored and saved (StoreReportImage). The
        users table is outside this method's frame, so it stays valid. */
    method UploadReportImage(reportId: int, file: Option<ImageFile>, uuid: string, writeSucceeds: bool)
      returns (resp: Response<ImageUploaded>)
      requires service.Valid()
      modifies service, storage
      ensures service.Valid()
      ensures file.None? ==> resp == BadRequest(MissingFilePartMessage) && unchanged(service, storage)
      ensures file.Some? ==>
              match FindReportIndex(old(service.reports), reportId)
              case None => resp == BadRequest(ImageReportNotFoundMessage) && unchanged(service, storage)
              case Some(k) => StoredImage(old(service.reports), k, old(storage.objects), service.reports,
                                          storage.objects, storage.bucketName, reportId, file, uuid,
                                          writeSucceeds, resp)
      ensures service.votes == old(service.votes) && service.broadcasts == old(service.broadcasts)
      ensures service.nextReportId == old(service.nextReportId) && service.nextVoteId == old(service.nextVoteId)
    {
      if file.None? {
        return BadRequest(MissingFilePartMessage);
      }
      var found := FindReportIndex(service.reports, reportId);
      if found.None? {
        return BadRequest(ImageReportNotFoundMessage);
      }
      resp := StoreReportImage(found.value, reportId, file, uuid, writeSucceeds);
    }

    /** The upload's second half, for the k-th stored report: any storage failure (a missing or
        empty file, a failed write) gets a 500 and leaves the report as it was; a stored image's
        URL is saved on the report, with no broadcast. */
    method StoreReportImage(k: nat, reportId: int, file: Option<ImageFile>, uuid: string, writeSucceeds: bool)
      returns (resp: Response<ImageUploaded>)
      requires service.Valid() && k < |service.reports|
      modifies service, storage
      ensures service.Valid()
      ensures StoredImage(old(service.reports), k, old(storage.objects), service.reports, storage.objects,
                          storage.bucketName, reportId, file, uuid, writeSucceeds, resp)
      ensures service.votes == old(service.votes) && service.broadcasts == old(service.broadcasts)
      ensures service.nextReportId == old(service.nextReportId) && service.nextVoteId == old(service.nextVoteId)
    {
      var uploaded := storage.UploadReportImage(file, reportId, uuid, writeSucceeds);
      if uploaded.Err? {
        return InternalServerError(ImageUploadFailedMessage);
      }
      service.SaveImageUrl(k, uploaded.value);
      resp := Success(ImageUploaded(ImageUploadedMessage, uploaded.value));
    }
  }
}
