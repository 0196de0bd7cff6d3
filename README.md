# RaastaBuzz in Dafny

RaastaBuzz is a crowd-sourced traffic reporting service. Users post traffic reports with a
category, a severity and a location. Other users vote on them and earn points. The reports
reach every open client as live updates over a WebSocket topic. A small forum sits next to the
reports. This project models the core of the system and proves properties about it:

- **Backend ledger and registries.**
  - The traffic-report service: create, update, soft delete, image URL, voting.
  - The vote table, with one vote per user and report, and the cached up/down tallies.
  - The user registry: registration, points, promotion, deactivation.
  - The forum service: posts, likes, comments and the replies counter.
  - The repository queries each service uses: active listings, newest first, area box,
    recent window, counts.
  - Services are classes whose tables are `seq` fields. Entities are datatypes. Each service
    keeps a `Valid()` invariant that delegates to a pure predicate, and preservation lemmas
    stand beside it.
- **Controllers.** The REST endpoints of the report and forum controllers map service
  outcomes to HTTP responses (`Success`, `BadRequest`, `NotFound`, `InternalServerError`).
  They award points: 5 for a report, 1 for a vote. Image upload covers the storage object
  name and the download URL.
- **WebSocket CORS filter.** The headers it adds on the `/ws` path and its short-circuit for
  `OPTIONS` preflight requests.
- **Live report list** (`TrafficReportsList.jsx`). The reducer that merges one pushed report
  into a bounded list: at most `maxItems`, newest first, at most one entry per id. Also its
  snapshot fetch and its vote handler. Beside it are the older unbounded reducer of
  `temp.jsx` and the map page's local vote counter.
- **Update service** (`trafficReportService.js`). The subscriber registry, the STOMP client's
  life cycle (connect, on-connect, disconnect) and the fan-out of each pushed report.
- **Presentation helpers and forms.**
  - Category emojis and names, severity colours, "time ago" labels, the 24-hour
    recent badge.
  - Profile levels.
  - The sign-up form checks, the report dialog's submit guard, and the forum page's tabs,
    likes and comment drafts.

Time is whole milliseconds, and the current time is always a parameter. Coordinates are
integers. Network and database outcomes that the code cannot see are parameters of the
methods. The requests a component sends are logged in a sequence field.

Where the behaviour described for the system and the code disagree, the model follows the
code:

- **Votes on the map.** The map page only bumps its local counters and sends nothing
  (`TrafficMap.jsx:55-68`). The older `temp.jsx` re-fetches after a vote (`temp.jsx:184-193`).
  The live list replaces the voted report with the server's copy. All three are modelled as
  written.
- **Snapshot items.** A snapshot is kept verbatim up to `maxItems`
  (`TrafficReportsList.jsx:370`). Malformed items are not dropped, and the snapshot is not
  re-filtered for recency or re-sorted.
- **Vote wire names.** These differ between clients (`UPVOTE`/`DOWNVOTE` in the list,
  `UP`/`DOWN` in `temp.jsx`, `up` on the map). The ledger uses a two-valued vote type. The
  map keeps the raw string because it tests only for `"up"`.
- **"Recent".** The client's recent badge is strictly younger than 24 hours. The server's
  `/recent` window includes its lower bound.

## Model

| member | source | states |
|---|---|---|
| Entities.NewerOrSameIsTotalPreorder | Backend/src/main/java/com/raastabuzz/repository/TrafficReportRepository.java:25 | the newest-first comparator (ORDER BY createdAt DESC, and the list's sort) is reflexive, transitive and total, so the stable sort it drives is well defined |
| Entities.NewTrafficReport | Backend/src/main/java/com/raastabuzz/model/TrafficReport.java:101-111 | a new report carries the eight given fields, is active and unverified, has zero up- and downvotes and no image, and has the null id 0 until saved |
| Entities.NewVote | Backend/src/main/java/com/raastabuzz/model/Vote.java:55-59 | a new vote links the given user and report with the given type and has the null id 0 until saved |
| Entities.NewUser | Backend/src/main/java/com/raastabuzz/model/User.java:90-94 | a new user has the given name, email and password, zero points, role CONTRIBUTOR, is active, and has the null id 0 until saved |
| Entities.EmailShapeMeaning | Backend/src/main/java/com/raastabuzz/model/User.java:44-47 | an address @Email accepts holds an '@' that is neither its first nor its last character |
| Entities.NoAtInDomain | Backend/src/main/java/com/raastabuzz/model/User.java:44-47 | the domain part @Email accepts never holds an '@', so the '@' the address is split at is the last one |
| Entities.EmailFromParts | Backend/src/main/java/com/raastabuzz/model/User.java:44-47 | a dot-atom local part of at most 64 characters, an '@' and a domain of dot-separated labels of at most 255 characters form an accepted address |
| Entities.MalformedEmailsRefused | Backend/src/main/java/com/raastabuzz/model/User.java:44-47 | example: "not-an-email", "ana@" and "@example.com" are refused |
| Text.TrimStart | Backend/src/main/java/com/raastabuzz/model/User.java:40-51 | the leading characters up to U+0020 are removed: the result is a suffix whose first character, if any, is above U+0020 |
| Text.TrimEnd | Backend/src/main/java/com/raastabuzz/model/User.java:40-51 | the trailing characters up to U+0020 are removed: the result is a prefix whose last character, if any, is above U+0020 |
| Text.JavaBlankIsTrimmedEmpty | Backend/src/main/java/com/raastabuzz/model/TrafficReport.java:38-40 | @NotBlank's trim-then-length test fails exactly on strings made only of characters up to U+0020 |
| ReportQueries.FindActiveNewestFirst | Backend/src/main/java/com/raastabuzz/repository/TrafficReportRepository.java:25 | exactly the active reports, each as often as stored, newest first |
| ReportQueries.AttributeQueriesKeepInactive | Backend/src/main/java/com/raastabuzz/repository/TrafficReportRepository.java:21-33 | findByActiveTrue returns exactly the active reports, while the category, severity, user and verified queries do not filter on active, so a soft-deleted report is still returned |
| ReportQueries.FindReportsInArea | Backend/src/main/java/com/raastabuzz/repository/TrafficReportRepository.java:35-41 | a report is returned exactly when it is active and both coordinates lie inside the closed box |
| ReportQueries.FindRecentReports | Backend/src/main/java/com/raastabuzz/repository/TrafficReportRepository.java:43-45 | exactly the active reports created at or after `since`, newest first |
| ReportQueries.FindRecentReportsByCategory | Backend/src/main/java/com/raastabuzz/repository/TrafficReportRepository.java:47-50 | exactly the active reports of the category created at or after `since` |
| ReportQueries.RecentWindowMonotone | Backend/src/main/java/com/raastabuzz/repository/TrafficReportRepository.java:43-45 | a wider window (an earlier `since`) returns every report a narrower one returns, and a report created exactly at `since` is included |
| ReportQueries.CountsUnderSoftDelete | Backend/src/main/java/com/raastabuzz/repository/TrafficReportRepository.java:52-56 | both per-user counts are bounded by the user's reports, and soft-deleting an active, verified report lowers the active count by one and leaves the verified count alone |
| ReportQueries.CountAtMostOwned | Backend/src/main/java/com/raastabuzz/repository/TrafficReportRepository.java:52-56 | a user's active count and verified count never exceed the number of reports they own |
| VoteQueries.FindByUserAndTrafficReport | Backend/src/main/java/com/raastabuzz/repository/VoteRepository.java:18 | a found vote belongs to that user and report; nothing is found exactly when no such vote exists; with one vote per pair, the found vote is the only one |
| VoteQueries.ExistsIffFound | Backend/src/main/java/com/raastabuzz/repository/VoteRepository.java:33 | the existence check holds exactly when the finder finds a vote |
| VoteQueries.SingleAttributeQueries | Backend/src/main/java/com/raastabuzz/repository/VoteRepository.java:20-24 | the by-report, by-user and by-type queries return exactly the votes with that attribute, in table order |
| VoteQueries.CountsAgreeWithQueries | Backend/src/main/java/com/raastabuzz/repository/VoteRepository.java:26-31 | each count query equals the length of the matching list query |
| VoteQueries.TalliesPartitionVotes | Backend/src/main/java/com/raastabuzz/repository/VoteRepository.java:26-28 | a report's upvote and downvote counts add up to all of its votes |
| UserQueries.MorePointsOrSameIsTotalPreorder | Backend/src/main/java/com/raastabuzz/repository/UserRepository.java:25-26 | the points-descending comparator is reflexive, transitive and total |
| UserQueries.FindByEmail | Backend/src/main/java/com/raastabuzz/repository/UserRepository.java:17 | a found user has that email; none is found exactly when no user has it; with unique emails the found user is the only one |
| UserQueries.ExistsByEmailIffFound | Backend/src/main/java/com/raastabuzz/repository/UserRepository.java:19 | the existence check holds exactly when the finder finds a user |
| UserQueries.FindUserIndex | Backend/src/main/java/com/raastabuzz/service/UserService.java:30-32 | the index found holds a user with that id; none is found exactly when no user has it |
| UserQueries.AttributeQueries | Backend/src/main/java/com/raastabuzz/repository/UserRepository.java:21-23 | the by-role and by-active queries return exactly the users with that attribute, in table order |
| UserQueries.FindTopContributorsByPoints | Backend/src/main/java/com/raastabuzz/repository/UserRepository.java:25-26 | exactly the active users, each as often as stored, with points never increasing along the list |
| UserQueries.FindUsersByMinPoints | Backend/src/main/java/com/raastabuzz/repository/UserRepository.java:28-29 | exactly the users with at least the given points, active or not |
| UserQueries.RoleCountsPartitionActiveUsers | Backend/src/main/java/com/raastabuzz/repository/UserRepository.java:31-32 | the CONTRIBUTOR and MODERATOR active counts add up to the number of active users, and each is at most the users with that role |
| ReportLedger.ErrorMessage | Backend/src/main/java/com/raastabuzz/service/TrafficReportService.java:97-126 | each service error renders as its exception text: "Traffic report not found with id: " plus the id, or "You don't have permission to update/delete this report" |
| ReportLedger.CountVoteMeaning | Backend/src/main/java/com/raastabuzz/service/TrafficReportService.java:146-186 | a vote changes only the tallies: a first vote adds one to its type, a changed vote adds one to the new type and takes one from the old one (not below zero), a repeated vote leaves the report as it was, and tallies stay non-negative |
| ReportLedger.RecordVoteMeaning | Backend/src/main/java/com/raastabuzz/service/TrafficReportService.java:137-165 | afterwards the pair has exactly one vote, of the new type; other votes are kept; a first vote is appended, and an existing one is changed in place with its id and creation time |
| ReportLedger.VoteKeepsSurplus | Backend/src/main/java/com/raastabuzz/service/TrafficReportService.java:134-186 | a vote moves the report's cached tallies and its counted votes by the same amount, and leaves every other report's counted votes unchanged |
| ReportLedger.VotePreservesTallies | Backend/src/main/java/com/raastabuzz/service/TrafficReportService.java:134-186 | after a vote every report's cached tallies still equal its counted UP and DOWN votes |
| ReportLedger.NewReportJoinsLedger | Backend/src/main/java/com/raastabuzz/service/TrafficReportService.java:74-93 | a report with zero tallies that no vote refers to keeps every report's tallies equal to its counted votes |
| ReportLedger.FindReportIndex | Backend/src/main/java/com/raastabuzz/service/TrafficReportService.java:96-97 | the index found holds the report with that id; none is found exactly when no report has it |
| ReportLedger.CreatedReport | Backend/src/main/java/com/raastabuzz/service/TrafficReportService.java:74-90 | the stored report carries the request's fields including its image URL, the new id, the reporter and the creation time, and the defaults of a new report |
| ReportLedger.ApplyRequestMeaning | Backend/src/main/java/com/raastabuzz/service/TrafficReportService.java:105-112 | an update copies the request's fields, image URL included, keeps the id, owner, tallies, flags and creation time, and applying it twice equals once |
| ReportLedger.GuardedOperationsMeaning | Backend/src/main/java/com/raastabuzz/service/TrafficReportService.java:95-132 | update and delete fail with not found exactly for an unknown id; delete succeeds exactly when the caller owns the report or is a MODERATOR; a successful update passes validation; a deleted report is inactive |
| ReportLedger.SoftDeleteHidesFromActiveQueries | Backend/src/main/java/com/raastabuzz/service/TrafficReportService.java:129-130 | after delete the report is still returned by the category and user queries, but no active listing returns it, and the other active reports stay listed |
| ReportLedger.VoteKeepsLedgerValid | Backend/src/main/java/com/raastabuzz/service/TrafficReportService.java:134-170 | a vote on a stored report keeps the ledger invariant: unique ids, one vote per user and report, tallies equal to the counted votes, and the next vote id advancing only for a first vote |
| ReportLedger.VoteRowsStayValid | Backend/src/main/java/com/raastabuzz/service/TrafficReportService.java:151-165 | after any vote every vote id is still unique and below the next id, and every vote still refers to a stored report id |
| ReportLedger.ImageUrlKeepsLedgerValid | Backend/src/main/java/com/raastabuzz/controller/TrafficReportController.java:203-205 | setting a report's image URL keeps the ledger invariant |
| ReportLedger.RowEditKeepsLedgerValid | Backend/src/main/java/com/raastabuzz/service/TrafficReportService.java:95-132 | replacing a stored report by a valid one with the same id and counters, as an update or a soft delete does, keeps ids unique and every report's counters equal to its vote tallies |
| ReportLedger.TrafficReportService.constructor | Backend/src/main/java/com/raastabuzz/service/TrafficReportService.java:30-39 | the service starts with empty tables and no broadcasts, and satisfies its invariant |
| ReportLedger.TrafficReportService.CreateReport | Backend/src/main/java/com/raastabuzz/service/TrafficReportService.java:74-93 | a valid report is appended with a fresh id, the id counter moves on by one, and the report is broadcast once on /topic/reports; an invalid one fails with a constraint violation and changes nothing; the invariant is kept |
| ReportLedger.TrafficReportService.UpdateReport | Backend/src/main/java/com/raastabuzz/service/TrafficReportService.java:95-117 | the outcome is the update decision; on success the report is replaced by the updated one and broadcast; on failure nothing changes |
| ReportLedger.TrafficReportService.DeleteReport | Backend/src/main/java/com/raastabuzz/service/TrafficReportService.java:119-132 | the outcome is the delete decision; on success the report becomes inactive and is broadcast; on failure nothing changes |
| ReportLedger.TrafficReportService.SaveImageUrl | Backend/src/main/java/com/raastabuzz/controller/TrafficReportController.java:203-205 | only the image URL of that report changes, with no broadcast, and the invariant is kept |
| ReportLedger.TrafficReportService.VoteOnReport | Backend/src/main/java/com/raastabuzz/service/TrafficReportService.java:134-170 | an unknown report fails and changes nothing; otherwise the vote is recorded, the report's tallies recounted, the report broadcast, and the invariant kept; the vote id counter moves on by one exactly for a first vote |
| UserAccounts.UserErrorMessage | Backend/src/main/java/com/raastabuzz/service/UserService.java:38-41 | the registry's errors render as "Error: Email is already taken!" and "User not found with id: " plus the id |
| UserAccounts.RegisteredUser | Backend/src/main/java/com/raastabuzz/service/UserService.java:43-51 | a registered user has the given name and email, the encoded password, zero points, role CONTRIBUTOR, is active, and gets the next id and the creation time |
| UserAccounts.RowUpdateKeepsAccountsValid | Backend/src/main/java/com/raastabuzz/service/UserService.java:54-89 | replacing one user with a copy that keeps id, name, email and password keeps ids and emails unique |
| UserAccounts.UserService.constructor | Backend/src/main/java/com/raastabuzz/service/UserService.java:18-24 | the registry starts empty and valid |
| UserAccounts.UserService.CreateUser | Backend/src/main/java/com/raastabuzz/service/UserService.java:38-52 | a taken email fails with EmailTaken and changes nothing; a user breaking a size, blank or email-shape constraint (such as the email "not-an-email") fails and changes nothing; otherwise one user is appended with the next id |
| UserAccounts.UserService.UpdateUserPoints | Backend/src/main/java/com/raastabuzz/service/UserService.java:54-57 | the caller's copy of the user, with the points added (no floor, no cap), replaces that user's row; no other row changes |
| UserAccounts.StoredUserIsFound | Backend/src/main/java/com/raastabuzz/service/UserService.java:30-32 | looking up a stored user's id finds that user's row, because ids are unique |
| ReportEndpoints.AwardStoredUser | Backend/src/main/java/com/raastabuzz/controller/TrafficReportController.java:127 | awarding points to a user the handler looked up changes only that user's points and keeps the registry valid |
| UserAccounts.UserService.PromoteToModerator | Backend/src/main/java/com/raastabuzz/service/UserService.java:75-81 | an unknown id fails with "User not found with id" and changes nothing; otherwise only that user's role becomes MODERATOR |
| UserAccounts.UserService.DeactivateUser | Backend/src/main/java/com/raastabuzz/service/UserService.java:83-89 | an unknown id fails with "User not found with id" and changes nothing; otherwise only that user becomes inactive |
| Text.LastIndexOf | Backend/src/main/java/com/raastabuzz/service/FirebaseStorageService.java:54-57 | the last position of the character, or -1 exactly when it does not occur |
| ImageStorage.GetFileExtension | Backend/src/main/java/com/raastabuzz/service/FirebaseStorageService.java:53-58 | empty for a missing name or one without a dot; otherwise the suffix from the last dot on |
| ImageStorage.EncodeSlashes | Backend/src/main/java/com/raastabuzz/service/FirebaseStorageService.java:49-50 | the encoded name contains no slash and is two characters longer per slash |
| ImageStorage.SlashEncodingRoundTrip | Backend/src/main/java/com/raastabuzz/service/FirebaseStorageService.java:49-50 | decoding "%2F" back to "/" recovers the object name exactly |
| ImageStorage.DownloadUrlShape | Backend/src/main/java/com/raastabuzz/service/FirebaseStorageService.java:36-50 | for any report id, UUID and extension the URL is the Firebase prefix, the bucket, "/o/", the encoded object name and "?alt=media"; the encoded name holds no slash, so it is a single path segment, and it is two characters longer per slash |
| ImageStorage.DownloadUrlRoundTrip | Backend/src/main/java/com/raastabuzz/service/FirebaseStorageService.java:36-50 | only when the UUID and the file extension hold no '%': the encoded name decodes back to traffic-reports/ plus the report id, the UUID and the extension |
| ImageStorage.UploadOutcome | Backend/src/main/java/com/raastabuzz/service/FirebaseStorageService.java:31-51 | a missing or empty file fails with the illegal-argument message, a failed write fails, and otherwise the result is the download URL of the stored name |
| ImageStorage.FirebaseStorage.constructor | Backend/src/main/java/com/raastabuzz/service/FirebaseStorageService.java:27-29 | the storage starts with the bucket name and no objects |
| ImageStorage.FirebaseStorage.UploadReportImage | Backend/src/main/java/com/raastabuzz/service/FirebaseStorageService.java:31-51 | returns the upload outcome; on success exactly one object with the stored name is added, on failure none |
| ReportEndpoints.ErrorBody | Backend/src/main/java/com/raastabuzz/controller/TrafficReportController.java:130-133 | the 400 body is "Error: " followed by the exception message |
| ReportEndpoints.CallerIndex | Backend/src/main/java/com/raastabuzz/controller/TrafficReportController.java:121-122 | the caller is the user whose id is the principal's; none exactly when there is no principal or no user with that id |
| ReportEndpoints.CallerFailure | Backend/src/main/java/com/raastabuzz/controller/TrafficReportController.java:120-133 | the ungated create and vote handlers' answer when the caller cannot be resolved: a 400 starting "Error: ", which is "Error: User not found" for a principal with no user |
| ReportEndpoints.ServiceFailure | Backend/src/main/java/com/raastabuzz/controller/TrafficReportController.java:148-151 | a service error becomes a 400 whose body is "Error: " plus the error's message |
| ReportEndpoints.Award | Backend/src/main/java/com/raastabuzz/controller/TrafficReportController.java:126-127 | the k-th user's points grow by the award, nothing else of that user changes, and no other user changes |
| ReportEndpoints.AwardAddsToTotal | Backend/src/main/java/com/raastabuzz/controller/TrafficReportController.java:126-127 | the sum of all users' points grows by exactly the award |
| ReportEndpoints.RecentSince | Backend/src/main/java/com/raastabuzz/controller/TrafficReportController.java:108-114 | the lower bound is `now` minus the requested hours, 24 when absent |
| ReportEndpoints.DefaultRecentWindow | Backend/src/main/java/com/raastabuzz/controller/TrafficReportController.java:108-114 | without a parameter the window is 24 hours: a report is returned exactly when it is active and at most 24 hours old, boundary included, newest first |
| ReportEndpoints.ImageInfoAsWritten | Backend/src/main/java/com/raastabuzz/controller/TrafficReportController.java:216-228 | as written: an unknown id gives a 400 "Traffic report not found", and the answer is a 500 exactly when the stored report has no image URL |
| ReportEndpoints.ImageInfoResponse | Backend/src/main/java/com/raastabuzz/controller/TrafficReportController.java:216-228 | corrected: never a 500 or 404; 200 exactly for a stored id, with the report's URL and hasImage true exactly when the URL is present and non-empty |
| ReportEndpoints.ImageInfoVersionsAgree | Backend/src/main/java/com/raastabuzz/controller/TrafficReportController.java:223-227 | the two versions differ exactly where the as-written one answers 500 |
| ReportEndpoints.ImageInfoNullUrlFinding | Backend/src/main/java/com/raastabuzz/controller/TrafficReportController.java:223-227 | a report created from a request without an image URL makes the as-written endpoint answer 500, while the corrected one answers 200 with hasImage false |
| ReportEndpoints.TrafficReportController.constructor | Backend/src/main/java/com/raastabuzz/controller/TrafficReportController.java:54-64 | the controller holds the given service, registry and storage, and is valid |
| ReportEndpoints.TrafficReportController.GetAllReports | Backend/src/main/java/com/raastabuzz/controller/TrafficReportController.java:66-71 | 200 with exactly the active reports, newest first |
| ReportEndpoints.TrafficReportController.GetReportById | Backend/src/main/java/com/raastabuzz/controller/TrafficReportController.java:79-84 | 200 with the stored report with that id, soft-deleted or not; 404 exactly when no report has it |
| ReportEndpoints.TrafficReportController.GetRecentReports | Backend/src/main/java/com/raastabuzz/controller/TrafficReportController.java:108-114 | 200 with exactly the active reports inside the window (24 hours by default), newest first |
| ReportEndpoints.TrafficReportController.CreateReport | Backend/src/main/java/com/raastabuzz/controller/TrafficReportController.java:116-134 | an unresolved caller gets a 400 and nothing changes; an invalid report gets a 400 and nothing changes; otherwise the report is created and broadcast, the caller gains 5 points, and the answer is 200 with the report |
| ReportEndpoints.TrafficReportController.UpdateReport | Backend/src/main/java/com/raastabuzz/controller/TrafficReportController.java:136-152 | an anonymous request is refused by method security before the handler and changes nothing; otherwise the service's decision for the resolved caller: success replaces and broadcasts the report; any failure is a 400 with its message and changes nothing; no points change |
| ReportEndpoints.TrafficReportController.DeleteReport | Backend/src/main/java/com/raastabuzz/controller/TrafficReportController.java:154-169 | an anonymous request is refused by method security and changes nothing; the owner's or a moderator's delete soft-deletes and broadcasts the report and answers "Report deleted successfully"; any other failure is a 400 that changes nothing |
| ReportEndpoints.TrafficReportController.VoteOnReport | Backend/src/main/java/com/raastabuzz/controller/TrafficReportController.java:171-190 | a vote on a stored report is recorded, the tallies recounted and broadcast, the voter gains 1 point, and the answer is the recounted report; an unresolved caller or unknown report is a 400 that changes nothing |
| ReportEndpoints.TrafficReportController.UploadReportImage | Backend/src/main/java/com/raastabuzz/controller/TrafficReportController.java:192-214 | a request without the required file part is a 400 before any lookup; an unknown report gets a 400 before storage is touched; otherwise a failed upload is a 500 that changes nothing, and a stored one adds the object, sets the report's image URL and answers 200 with the URL |
| ReportEndpoints.TrafficReportController.StoreReportImage | Backend/src/main/java/com/raastabuzz/controller/TrafficReportController.java:200-213 | a failed upload is a 500 that changes neither the bucket nor the report; a stored one adds exactly one object, sets the report's image URL and answers 200 with the URL |
| ForumQueries.PostOrdersAreTotalPreorders | Backend/src/main/java/com/raastabuzz/repository/ForumPostRepository.java:17-26 | the newest-first and the popularity (likes, then newest) comparators are reflexive, transitive and total |
| ForumQueries.FindActivePostsNewestFirst | Backend/src/main/java/com/raastabuzz/repository/ForumPostRepository.java:17 | exactly the active posts, each as often as stored, newest first |
| ForumQueries.FindActivePostsInCategory | Backend/src/main/java/com/raastabuzz/repository/ForumPostRepository.java:23 | exactly the active posts of the category, each as often as stored, newest first |
| ForumQueries.CategoryListingRestrictsMain | Backend/src/main/java/com/raastabuzz/repository/ForumPostRepository.java:23 | a post is in the category listing exactly when it is in the main listing and has that category |
| ForumQueries.FindPopularPosts | Backend/src/main/java/com/raastabuzz/repository/ForumPostRepository.java:25-26 | exactly the active posts, each once, ordered by likes descending and then newest first |
| ForumQueries.PopularOrderMeaning | Backend/src/main/java/com/raastabuzz/repository/ForumPostRepository.java:25-26 | likes never increase down the listing, and posts with equal likes are listed newest first |
| ForumQueries.PostAttributeQueriesKeepInactive | Backend/src/main/java/com/raastabuzz/repository/ForumPostRepository.java:19-21 | the by-category and by-user queries return exactly the stored posts with that attribute, deleted ones included, in table order |
| ForumQueries.ActivePostCountUnderSoftDelete | Backend/src/main/java/com/raastabuzz/repository/ForumPostRepository.java:28-29 | the active count is bounded by the user's posts, and soft-deleting one of their active posts lowers it by one |
| ForumQueries.ActiveCountAtMostOwned | Backend/src/main/java/com/raastabuzz/repository/ForumPostRepository.java:28-29 | a user's active count never exceeds the number of posts they own |
| ForumBoard.ForumErrorMessage | Backend/src/main/java/com/raastabuzz/service/ForumService.java:62-84 | the forum errors render as "Forum post not found with id: " plus the id, or "You don't have permission to update/delete this post" |
| ForumBoard.FindPostIndex | Backend/src/main/java/com/raastabuzz/service/ForumService.java:43-45 | the index found holds the post with that id; none is found exactly when no post has it |
| ForumBoard.NewPost | Backend/src/main/java/com/raastabuzz/service/ForumService.java:47-58 | a new post has the given title, content, category, author, id and creation time, zero likes and replies, and is active |
| ForumBoard.EditPostMeaning | Backend/src/main/java/com/raastabuzz/service/ForumService.java:69-72 | an edit replaces title, content and category, keeps every other field, and editing twice with the same values equals once |
| ForumBoard.PostDecisionsMeaning | Backend/src/main/java/com/raastabuzz/service/ForumService.java:60-97 | update and delete fail with not found exactly for an unknown id, and with the permission error for a caller who neither owns the post nor is a MODERATOR; like fails only for an unknown id |
| ForumBoard.OlderCommentOrSameIsTotalPreorder | Backend/src/main/java/com/raastabuzz/service/ForumService.java:99-103 | the oldest-first comment comparator is reflexive, transitive and total |
| ForumBoard.CommentsOf | Backend/src/main/java/com/raastabuzz/service/ForumService.java:99-103 | exactly the post's comments, each once, oldest first, as many as there are comments on the post |
| ForumBoard.RepliesCountComments | Backend/src/main/java/com/raastabuzz/service/ForumService.java:105-116 | for a stored post, the comment listing has exactly as many entries as its replies counter |
| ForumBoard.NewPostKeepsForumValid | Backend/src/main/java/com/raastabuzz/service/ForumService.java:47-58 | appending a post with the next id and no likes or replies keeps the forum invariant |
| ForumBoard.ReplacePostKeepsForumValid | Backend/src/main/java/com/raastabuzz/service/ForumService.java:60-97 | replacing a post by one with the same id and replies counter and non-negative likes (an edit, a soft delete, a like) keeps the forum invariant |
| ForumBoard.CommentKeepsForumValid | Backend/src/main/java/com/raastabuzz/service/ForumService.java:105-116 | a comment with the next comment id, together with one more reply on its post, keeps every counter equal to its comment count |
| ForumBoard.ForumService.constructor | Backend/src/main/java/com/raastabuzz/service/ForumService.java:19-25 | the forum starts empty and valid |
| ForumBoard.ForumService.GetPostById | Backend/src/main/java/com/raastabuzz/service/ForumService.java:43-45 | the stored post with the id, or none exactly when no post has it |
| ForumBoard.ForumService.CreatePost | Backend/src/main/java/com/raastabuzz/service/ForumService.java:47-58 | appends the new post with the next id, which no stored post has, and keeps the invariant |
| ForumBoard.ForumService.UpdatePost | Backend/src/main/java/com/raastabuzz/service/ForumService.java:60-75 | the outcome is the update decision; success replaces the post with the edited one; a failure changes nothing |
| ForumBoard.ForumService.DeletePost | Backend/src/main/java/com/raastabuzz/service/ForumService.java:77-89 | the outcome is the delete decision; success makes the post inactive; a failure changes nothing |
| ForumBoard.ForumService.LikePost | Backend/src/main/java/com/raastabuzz/service/ForumService.java:91-97 | any caller's like adds one like to the stored post, active or not; an unknown id fails and changes nothing |
| ForumBoard.ForumService.GetCommentsForPost | Backend/src/main/java/com/raastabuzz/service/ForumService.java:99-103 | fails exactly for an unknown post; otherwise the post's comments oldest first, as many as its replies counter |
| ForumBoard.ForumService.AddComment | Backend/src/main/java/com/raastabuzz/service/ForumService.java:105-116 | an unknown post fails and changes nothing; otherwise one comment with the next id is appended, the post's replies grow by one, and the invariant is kept |
| ForumEndpoints.ForumFailure | Backend/src/main/java/com/raastabuzz/controller/ForumController.java:96-99 | a forum error becomes a 400 whose body is "Error: " plus its message |
| ForumEndpoints.ForumController.constructor | Backend/src/main/java/com/raastabuzz/controller/ForumController.java:32-38 | the controller holds the given forum service and user registry, and is valid |
| ForumEndpoints.ForumController.GetAllPosts | Backend/src/main/java/com/raastabuzz/controller/ForumController.java:40-45 | 200 with exactly the active posts, newest first |
| ForumEndpoints.ForumController.GetPostsByCategory | Backend/src/main/java/com/raastabuzz/controller/ForumController.java:47-51 | 200 with exactly the active posts of the category, newest first |
| ForumEndpoints.ForumController.GetPopularPosts | Backend/src/main/java/com/raastabuzz/controller/ForumController.java:53-57 | 200 with exactly the active posts, most liked first |
| ForumEndpoints.ForumController.GetPostById | Backend/src/main/java/com/raastabuzz/controller/ForumController.java:59-64 | 200 with the stored post with that id, deleted or not; 404 exactly when no post has it |
| ForumEndpoints.ForumController.GetMyPosts | Backend/src/main/java/com/raastabuzz/controller/ForumController.java:66-74 | exactly the anonymous requests are refused by method security; otherwise 200 with exactly the caller's posts, deleted ones included, in table order; a signed-in principal with no user ends in a 500, because the lookup is outside any try |
| ForumEndpoints.ForumController.CreatePost | Backend/src/main/java/com/raastabuzz/controller/ForumController.java:76-100 | an anonymous request is refused by method security and changes nothing; a principal with no user gets a 400 and nothing changes; otherwise the post is created and returned and its author gains 3 points |
| ForumEndpoints.ForumController.UpdatePost | Backend/src/main/java/com/raastabuzz/controller/ForumController.java:102-125 | an anonymous request is refused by method security and changes nothing; otherwise the service's decision for the resolved caller: success stores and returns the edit; any failure is a 400 that changes nothing |
| ForumEndpoints.ForumController.DeletePost | Backend/src/main/java/com/raastabuzz/controller/ForumController.java:127-142 | an anonymous request is refused by method security and changes nothing; the owner's or a moderator's delete soft-deletes the post and answers "Post deleted successfully"; any other failure is a 400 that changes nothing |
| ForumEndpoints.ForumController.LikePost | Backend/src/main/java/com/raastabuzz/controller/ForumController.java:144-154 | an anonymous request is refused by method security and changes nothing; for a signed-in caller there is no user lookup: a like on a stored post adds one like and returns the saved post; an unknown id is a 400 |
| WebSocketCors.ElseIfBranchUnreachable | Backend/src/main/java/com/raastabuzz/config/WebSocketCorsFilter.java:38-46 | no origin reaches the else-if branch: every "http://localhost:" origin it would accept is already accepted by the first test |
| WebSocketCors.IsOptionsExamples | Backend/src/main/java/com/raastabuzz/config/WebSocketCorsFilter.java:56 | example: the preflight test ignores case: "OPTIONS", "options" and "Options" match, "GET" and "OPTION" do not |
| WebSocketCors.CorsHeadersMeaning | Backend/src/main/java/com/raastabuzz/config/WebSocketCorsFilter.java:38-53 | the four fixed headers are always set; an allow-listed origin is echoed back; for any other origin the allow-origin header is left as it was; no other header changes |
| WebSocketCors.FixedHeadersInOrder | Backend/src/main/java/com/raastabuzz/config/WebSocketCorsFilter.java:49-53 | the four setHeader calls in the filter's order leave the same headers as setting the four fixed headers at once, overriding any earlier value |
| WebSocketCors.FilterExchange.constructor | Backend/src/main/java/com/raastabuzz/config/WebSocketCorsFilter.java:26-30 | an exchange starts with no headers, no status and no chain call |
| WebSocketCors.FilterExchange.DoFilter | Backend/src/main/java/com/raastabuzz/config/WebSocketCorsFilter.java:22-63 | outside /ws only the chain runs; on /ws the CORS headers are added, a preflight gets 200 without the chain, and any other method goes on to the chain |
| UpdateService.UnsubscribeMeaning | Frontend/src/services/trafficReportService.js:199-200 | every occurrence of the callback is removed, the others keep their order and multiplicity, and subscribing a new callback then unsubscribing it restores the list |
| UpdateService.Intercept | Frontend/src/services/trafficReportService.js:135-141 | a non-empty stored token adds "Bearer " plus the token as Authorization; otherwise the headers are unchanged |
| UpdateService.ReportUpdateService.constructor | Frontend/src/services/trafficReportService.js:143-147 | no client, no subscribers, no client created yet |
| UpdateService.ReportUpdateService.ConnectWebSocket | Frontend/src/services/trafficReportService.js:150-182 | a connected client is kept; otherwise a fresh, unconnected client replaces any old one; subscribers are unchanged |
| UpdateService.ReportUpdateService.OnConnect | Frontend/src/services/trafficReportService.js:163-171 | the current client becomes connected; with no client nothing changes; subscribers are unchanged |
| UpdateService.ReportUpdateService.DisconnectWebSocket | Frontend/src/services/trafficReportService.js:185-191 | the client is dropped and the subscribers are kept |
| UpdateService.ReportUpdateService.SubscribeToUpdates | Frontend/src/services/trafficReportService.js:194-198 | the callback is appended, and a client exists afterwards: the connected one is kept, otherwise a new one is created |
| UpdateService.ReportUpdateService.Unsubscribe | Frontend/src/services/trafficReportService.js:199-204 | the callback's entries are removed and the others kept; when none remain the client is dropped; unsubscribing an unknown callback from a non-empty list changes nothing |
| UpdateService.ReportUpdateService.Dispatch | Frontend/src/services/trafficReportService.js:166-170 | each subscriber receives the pushed report exactly once, in subscription order |
| LiveReportList.DeactivationRemoves | Frontend/src/components/Traffic/TrafficReportsList.jsx:388-391 | an inactive event removes every entry with that id, keeps the others in their order, cut to maxItems; for an id not listed it only cuts |
| LiveReportList.UpsertLeavesOneVersion | Frontend/src/components/Traffic/TrafficReportsList.jsx:394-400 | after the insert-or-replace step the report is listed and every entry with its id is the new version |
| LiveReportList.ReplaceListed | Frontend/src/components/Traffic/TrafficReportsList.jsx:394-404 | a recent event for a listed id swaps that entry, re-sorts newest first and cuts; the length is unchanged up to the cut |
| LiveReportList.InsertNew | Frontend/src/components/Traffic/TrafficReportsList.jsx:398-404 | a recent event for a new id adds it once, sorts newest first and cuts to maxItems; nothing cut away is newer than what is kept |
| LiveReportList.InsertKeepsUniqueIds | Frontend/src/components/Traffic/TrafficReportsList.jsx:402 | inserting a report with a new id into the sorted prefix keeps ids unique |
| LiveReportList.SortKeepsUniqueIds | Frontend/src/components/Traffic/TrafficReportsList.jsx:402 | sorting newest first keeps ids unique |
| LiveReportList.FilterKeepsUniqueIds | Frontend/src/components/Traffic/TrafficReportsList.jsx:390 | removing entries keeps ids unique |
| LiveReportList.EventKeepsInvariants | Frontend/src/components/Traffic/TrafficReportsList.jsx:386-408 | from a list with unique ids, newest first and within maxItems, every event keeps all three; an active event that is not recent leaves the list as it was |
| LiveReportList.RecentCandidates | Frontend/src/components/Traffic/TrafficReportsList.jsx:394-402 | before the cut the candidate list is newest first and holds the report as the only version of its id |
| LiveReportList.RedeliverKept | Frontend/src/components/Traffic/TrafficReportsList.jsx:394-404 | delivering again a report that survived the cut changes nothing |
| LiveReportList.RedeliverEvicted | Frontend/src/components/Traffic/TrafficReportsList.jsx:399-404 | delivering again a report that was cut away cuts it away again |
| LiveReportList.ApplyEventIdempotent | Frontend/src/components/Traffic/TrafficReportsList.jsx:386-408 | applying the same event twice gives the same list as applying it once |
| LiveReportList.SortNewestToFront | Frontend/src/components/Traffic/TrafficReportsList.jsx:402 | a report strictly newer than every listed one sorts to the front, with the rest in their order |
| LiveReportList.ArriveNewest | Frontend/src/components/Traffic/TrafficReportsList.jsx:399-404 | a new report newer than all listed goes to the front, and a full list drops its oldest entry |
| LiveReportList.EvictionExample | Frontend/src/components/Traffic/TrafficReportsList.jsx:399-404 | example: with room for two, three reports arriving oldest to newest leave the two newest, newest first |
| LiveReportList.VotePatchKeepsInvariants | Frontend/src/components/Traffic/TrafficReportsList.jsx:430-432 | replacing the voted entries with the server's copy changes only those entries, and keeps unique ids and newest-first order when the copy has the same id and creation time |
| LiveReportList.SnapshotKeepsInvariants | Frontend/src/components/Traffic/TrafficReportsList.jsx:370 | a snapshot cut to maxItems is within the bound; it is newest first and duplicate-free only if the server's list is |
| LiveReportList.ReportsList.constructor | Frontend/src/components/Traffic/TrafficReportsList.jsx:359-363 | an empty list, loading, no error, no votes sent, and the given maxItems |
| LiveReportList.ReportsList.FetchReports | Frontend/src/components/Traffic/TrafficReportsList.jsx:365-378 | success keeps the first maxItems reports of the server's list and clears the error; failure empties the list and shows "Failed to load traffic reports"; loading ends |
| LiveReportList.ReportsList.OnReportEvent | Frontend/src/components/Traffic/TrafficReportsList.jsx:386-409 | the list becomes the reducer's result and the invariant (unique ids, newest first, within maxItems) is kept; other state is unchanged |
| LiveReportList.ReportsList.HandleVote | Frontend/src/components/Traffic/TrafficReportsList.jsx:415-437 | signed out: nothing is sent or changed; otherwise one vote request to /traffic-reports/{id}/vote with "Bearer " plus the token is logged; success replaces the entries with that id by the server's report; failure keeps the list and shows the vote error |
| LiveReportList.ReportsList.DismissError | Frontend/src/components/Traffic/TrafficReportsList.jsx:467 | only the error is cleared |
| MapDraft.BoundedIsCutUnbounded | Frontend/temp.jsx:128-148 | for a list within maxItems, the bounded reducer equals the unbounded one followed by the cut; an active event that is not recent leaves the unbounded list as it was |
| MapDraft.UnboundedGrowth | Frontend/temp.jsx:130-143 | an event grows the list by at most one; a removal never grows it and removes the id; a listed id never grows it; an active recent report is listed afterwards |
| MapDraft.UnboundedKeepsInvariants | Frontend/temp.jsx:128-148 | the unbounded reducer is idempotent and keeps ids unique and the list newest first |
| MapDraft.DraftMap.constructor | Frontend/temp.jsx:95-98 | an empty list, loading, no error, no votes sent |
| MapDraft.DraftMap.FetchTrafficReports | Frontend/temp.jsx:103-117 | success stores the server's list verbatim and clears the error; failure leaves an empty list and sets the error; loading ends |
| MapDraft.DraftMap.OnReportEvent | Frontend/temp.jsx:127-148 | the list becomes the unbounded reducer's result; other state is unchanged |
| MapDraft.DraftMap.HandleVote | Frontend/temp.jsx:184-193 | signed out: nothing happens; otherwise one vote is sent; a failed vote changes nothing else; a successful one re-fetches, storing the new list or an empty list with the error |
| LeafletMap.CreateCategoryIcon | Frontend/src/components/Map/TrafficMap.jsx:18-37 | a category in the table gets its colour and icon; any other gets the grey fallback marker |
| LeafletMap.ServerCategoryNamesFallBack | Frontend/src/components/Map/TrafficMap.jsx:19-37 | the server's upper-case category names are never keys of the lower-case table, so if this page were fed the API's reports each would get the fallback marker; as written it holds only the demo reports (TrafficMap.jsx:50), whose categories are lower case |
| LeafletMap.BumpVote | Frontend/src/components/Map/TrafficMap.jsx:58-67 | the list keeps its length; what changes in it is stated by LeafletMap.BumpVoteMeaning |
| LeafletMap.BumpVoteMeaning | Frontend/src/components/Map/TrafficMap.jsx:58-67 | only the reports with the voted id change, each by one on the voted counter ("up" bumps upvotes, any other type downvotes), with nothing else of them changed |
| LeafletMap.LeafletReports.constructor | Frontend/src/components/Map/TrafficMap.jsx:50 | the map starts with the given reports |
| LeafletMap.LeafletReports.HandleVote | Frontend/src/components/Map/TrafficMap.jsx:55-68 | signed out: nothing changes; otherwise the counters are bumped locally and nothing is sent |
| TimeFormat.RecencyWindowsAgreeExceptBoundary | Frontend/src/components/Traffic/TrafficReportsList.jsx:353-357 | a report with the recent badge is inside the server's 24-hour window, and the two disagree exactly for a report exactly 24 hours old; temp.jsx:86-90 uses the same predicate |
| TimeFormat.NestedFloorDivision | Frontend/src/components/Traffic/TrafficReportsList.jsx:339-351 | flooring to minutes or hours first and then dividing gives the same whole hours or days as dividing the age directly |
| TimeFormat.TimeAgoMeaning | Frontend/src/components/Traffic/TrafficReportsList.jsx:339-351 | under an hour the label counts minutes, under a day hours, otherwise days; the number is the whole units elapsed and reads back from the label; temp.jsx:72-84 and TrafficMap.jsx:70-82 build the same label |
| TimeFormat.ForumTimeAgoMeaning | Frontend/src/pages/Forum.jsx:61-71 | under a day the label counts whole hours (a new post shows "0h ago"), otherwise whole days |
| ReportBadges.CategoryEmojiLookup | Frontend/src/components/Traffic/TrafficReportsList.jsx:306-317 | each category name gets its own emoji, distinct categories get distinct emojis, and any other text gets the OTHER emoji |
| ReportBadges.UnderscoresToSpaces | Frontend/src/components/Traffic/TrafficReportsList.jsx:320-325 | every underscore becomes a space and every other character stays, position by position |
| ReportBadges.CapitalizeWords | Frontend/src/components/Traffic/TrafficReportsList.jsx:320-325 | the result is as long as the input; which letters it capitalises is stated by ReportBadges.FormatCategoryNameMeaning |
| ReportBadges.FormatCategoryName | Frontend/src/components/Traffic/TrafficReportsList.jsx:320-325 | the display name is as long as the category; its characters are stated by ReportBadges.FormatCategoryNameMeaning |
| ReportBadges.CaseMappingKeepsWordChars | Frontend/src/components/Traffic/TrafficReportsList.jsx:320-325 | lower- and upper-casing keep word characters word characters and never create an underscore, so word starts stay where they were |
| ReportBadges.FormatCategoryNameMeaning | Frontend/src/components/Traffic/TrafficReportsList.jsx:320-325 | underscores become spaces, every other character keeps its letter, upper case appears exactly at word starts and lower case only after a word character; temp.jsx:64-69 is the same function |
| ReportBadges.FormatCategoryNameExample | Frontend/src/components/Traffic/TrafficReportsList.jsx:320-325 | example: TRAFFIC_JAM shows as "Traffic Jam" |
| ReportBadges.SeverityPaletteLookup | Frontend/src/components/Traffic/TrafficReportsList.jsx:328-336 | LOW, MEDIUM, HIGH and CRITICAL map to four distinct palette names (success, warning, error, secondary); anything else to default |
| ReportBadges.SeverityHexLookup | Frontend/temp.jsx:53-61 | the four severities map to four distinct colours; anything else to the LOW colour |
| ProfileLevels.Band | Frontend/src/pages/Profile.jsx:52-64 | points fall into exactly one of four bands cut at 100, 500 and 1000 |
| ProfileLevels.LevelAndThresholdAgree | Frontend/src/pages/Profile.jsx:52-64 | the level and the next threshold are read off the same band, so equal levels mean equal thresholds and the other way round |
| ProfileLevels.LevelsAreMonotone | Frontend/src/pages/Profile.jsx:52-64 | more points never mean a lower band or a lower next threshold |
| ProfileLevels.PointsNeededMeaning | Frontend/src/pages/Profile.jsx:122 | the points-needed caption is positive exactly below 2000 and at most 1000 for non-negative points; below 1000 the next threshold is the first cut point above the points |
| RegisterPage.SetField | Frontend/src/pages/Register.jsx:27-29 | the edited field takes the value and the others are kept |
| RegisterPage.FirstFailureMeaning | Frontend/src/pages/Register.jsx:34-47 | each message appears exactly when its check is the first to fail; a form passes exactly when all fields are filled, the passwords agree and have at least six characters |
| RegisterPage.MismatchBeforeLength | Frontend/src/pages/Register.jsx:34-47 | example: checks run in order: a short, mismatched password is reported as a mismatch, a short matching one as too short, and an empty field before either |
| RegisterPage.Payload | Frontend/src/pages/Register.jsx:49-57 | the request carries name, email and password, without the confirmation |
| RegisterPage.SignUpPage.constructor | Frontend/src/pages/Register.jsx:16-23 | a blank form, no error, not loading, nothing sent |
| RegisterPage.SignUpPage.HandleInputChange | Frontend/src/pages/Register.jsx:27-29 | only the edited field changes |
| RegisterPage.SignUpPage.HandleSubmit | Frontend/src/pages/Register.jsx:31-64 | a failed check shows its message and sends nothing; otherwise one payload is sent and loading ends; success navigates home, failure shows the thrown message |
| ReportDialog.SetField | Frontend/src/components/Traffic/TrafficReportDialog.jsx:35-37 | the edited field takes the value and the others are kept |
| ReportDialog.SubmitGuardMeaning | Frontend/src/components/Traffic/TrafficReportDialog.jsx:44-47 | the button is enabled exactly when nothing is loading and a click would pass the guard (title, category and location filled); description and severity never matter; the initial form cannot be submitted |
| ReportDialog.ReportDialogState.constructor | Frontend/src/components/Traffic/TrafficReportDialog.jsx:25-33 | the initial form with severity "medium", not loading, no success, no phases, onClose not called |
| ReportDialog.ReportDialogState.HandleInputChange | Frontend/src/components/Traffic/TrafficReportDialog.jsx:35-37 | only the edited field changes |
| ReportDialog.ReportDialogState.HandleGetCurrentLocation | Frontend/src/components/Traffic/TrafficReportDialog.jsx:39-42 | only the location changes, to the fixed current-location text |
| ReportDialog.ReportDialogState.HandleSubmit | Frontend/src/components/Traffic/TrafficReportDialog.jsx:44-69 | a form missing title, category or location does nothing; otherwise the dialog goes through submitting, success and closed, resets the form and calls onClose once |
| ForumPage.LowerCategoryNames | Frontend/src/pages/Forum.jsx:157-162 | the server's category names lower-case to the page's keys: GENERAL to general, TIPS to tips, SAFETY to safety, FEATURE_REQUEST to feature_request |
| ForumPage.ChipMatchesCategory | Frontend/src/pages/Forum.jsx:73-89 | each post's chip shows the same label and colour as its category's option in the new-post form; a post without a category shows the General chip |
| ForumPage.ChipsAreDistinct | Frontend/src/pages/Forum.jsx:73-89 | distinct categories get distinct labels and distinct colours |
| ForumPage.TabRequest | Frontend/src/pages/Forum.jsx:37-55 | tabs 0 to 3 request a listing and no other tab does; tab 0 loads all posts, tabs 1 to 3 load a category |
| ForumPage.ToggleMeaning | Frontend/src/pages/Forum.jsx:194-197 | toggling flips the post's open flag, every other post keeps its flag, and toggling twice restores it |
| ForumPage.BumpReplies | Frontend/src/pages/Forum.jsx:245 | the post list keeps its length; which cards change is stated by ForumPage.BumpRepliesMeaning |
| ForumPage.BumpRepliesMeaning | Frontend/src/pages/Forum.jsx:245 | only the cards with the commented post's id change, each showing one more reply; every other card is unchanged |
| ForumPage.BumpRepliesAddsOnePerCard | Frontend/src/pages/Forum.jsx:245 | the replies shown in total grow by one for each card of that post |
| ForumPage.AppendComment | Frontend/src/pages/Forum.jsx:240-243 | the post's cached list gains the new comment at the end and its draft is cleared; other posts' entries are kept |
| ForumPage.EditDraft | Frontend/src/pages/Forum.jsx:230-233 | only the post's draft changes, to the typed text; its list and other posts' entries are kept |
| ForumPage.ForumView.constructor | Frontend/src/pages/Forum.jsx:30-56 | tab 0, dialog closed, empty new-post draft, no open panels, no cached comments; the mount-time effect requests all posts once, and a loaded list is shown (otherwise none) |
| ForumPage.ForumView.SelectTab | Frontend/src/pages/Forum.jsx:37-60 | selecting the current tab changes nothing; otherwise the tab changes, a tab with a listing requests it once and shows the loaded posts, and a failed load keeps the old list |
| ForumPage.ForumView.LikeClicked | Frontend/src/pages/Forum.jsx:182-187 | signed out: nothing; otherwise one like request, and on success the card with the returned post's id is replaced by it; a failure changes nothing |
| ForumPage.ForumView.ToggleComments | Frontend/src/pages/Forum.jsx:194-204 | the post's panel flips; comments are fetched exactly when it was closed and none are cached, and a fetched list is cached with an empty draft |
| ForumPage.ForumView.TypeComment | Frontend/src/pages/Forum.jsx:230-233 | only that post's draft changes |
| ForumPage.ForumView.PostComment | Frontend/src/pages/Forum.jsx:235-247 | a blank draft sends nothing and changes nothing; otherwise the draft is sent, and a created comment is appended, the draft cleared, and that post's cards show one more reply |
| ForumPage.ForumView.SubmitPost | Frontend/src/pages/Forum.jsx:361-369 | the form is sent; a created post goes first in the list, the dialog closes and the form resets; a failure changes only the request log |

## Left out

- **Transport and libraries.** STOMP/SockJS framing, reconnect delays and heartbeats; axios;
  localStorage; React rendering, batching, stale closures and the interleaving of async
  callbacks. Each handler runs as one atomic step, and network outcomes are parameters.
- **Backend infrastructure.** Spring wiring, JPA transactions and lazy loading, JWT parsing
  and Firebase I/O. The filter chain, the JWT filter and the user details service are not
  modelled; a request's principal is a parameter. Password encoding is a function parameter. The bucket write
  outcome and the upload UUID are parameters. The paged listing endpoints are not modelled.
- **JPA aliasing.** Managed-entity identity and aliasing are not modelled. An entity read from
  a repository is a value, and every change is written back explicitly.
- **Method security.** `@PreAuthorize` on the report update and delete handlers and on the
  forum's own-posts, create, update, delete and like handlers
  (`TrafficReportController.java:137`, `155`; `ForumController.java:67`, `77`, `103`,
  `128`, `145`) is modelled as a `Unauthorized` answer to an anonymous request, given before
  the handler runs and changing nothing. The role test always passes for a signed-in caller,
  because every stored user is a CONTRIBUTOR or a MODERATOR. The status and body that the
  authentication entry point (`SecurityConfig.java:74`) writes are not modelled.
- **Integer widths.** Java `Integer` and `Long` overflow of tallies, points, likes, replies
  and ids is not modelled; all counters are unbounded integers.
- **Floating point.** Coordinates are integers rather than doubles. The profile progress bar
  (`Profile.jsx:127`) is not modelled.
- **Thin delegating getters.** `getReportsByCategory`, `getReportsBySeverity`,
  `getReportsInArea` and the service count getters forward to the repository queries
  modelled above. Their controller endpoints are not modelled separately.
- **Missing files.** `ForumPost.java` and `ForumComment.java` are not part of this model. Their
  entity datatypes carry the columns the forum service reads and writes. The comment query of
  `ForumCommentRepository.java` is modelled as `ForumBoard.CommentsOf`.
- **Null required fields.** A request whose category, severity, latitude or longitude is
  null (each `@NotNull`, `TrafficReport.java:45-61`) is not modelled; categories and
  severities are always enum values and coordinates always numbers.
- **Character set.** JavaScript `toLowerCase`/`toUpperCase` are Unicode-aware; the model maps
  ASCII letters only. String lengths count characters, not UTF-16 units.
- **Inherited object keys.** The JavaScript lookups `iconMap[category] || iconMap.OTHER` and
  `colors[severity] || …` return an inherited `Object.prototype` member for keys such as
  `"toString"` or `"constructor"`, not the fallback. `ReportBadges.CategoryEmoji`,
  `SeverityPalette` and `SeverityHex` give the fallback for every string outside the table. The
  server's enum names never hit those keys.
- **Report dialog timers.** The nested `setTimeout` chain runs as one step that logs the
  phases it passes through. Cancellation by unmounting is not modelled.
- **Forum page.** The open/close and field setters of the new-post dialog, and the rendering
  gates (the comment box only for a signed-in user), are not modelled.
- **Forum comment routes.** `ForumController.java:40-154` maps no `/posts/{id}/comments`
  route, so against this backend the page's `getComments` and `addComment`
  (`forumService.js:29-44`) always fail. `ForumPage.ForumView.ToggleComments` and
  `ForumPage.ForumView.PostComment` keep the success branches the page's code writes, with the
  outcome a parameter. Only their failure branches can occur against this backend.
- ImageStorage.DownloadUrlRoundTrip: the decoding round trip is promised only when the UUID and
  the file extension hold no '%'. The extension comes from the uploaded file's name, and the
  source never decodes the URL; a '%' there gives a URL whose name does not decode back.
- UserAccounts.UserService.CreateUser: the email-shape check covers unquoted local parts and
  host-name domains. Quoted local parts, bracketed IP-literal domains, the 63-character limit on
  one domain label and international domain names are not modelled.
- MapDraft.DraftMap.OnReportEvent: every branch of the updater first logs
  `trafficReports[5].imageUrl` (`temp.jsx:131`, `142`, `145`). The callback captured the first
  render's empty list, so that line throws in every branch. The model leaves the logging lines
  out and states the list the updater returns without them.
- ReportEndpoints.CallerFailure: this answer is reached only from the handlers that carry no
  `@PreAuthorize`, the report create and vote endpoints. For them a missing principal makes the
  lookup throw a NullPointerException inside the try, and the message is whatever the JVM's
  helpful NullPointerException message says. The model fixes it to one constant and states only
  that it starts with "Error: ".
- ReportEndpoints.TrafficReportController.CreateReport: bean validation failures carry one
  placeholder message; which constraint failed, and its wording, are not modelled.
- ReportEndpoints.TrafficReportController.CreateReport: the request body is `@Valid`
  (`TrafficReportController.java:118`), but `TrafficReportRequest.java` is not part of this
  model. If that class carries constraints, an invalid body is refused with Spring's own 400
  before the caller lookup. The model instead checks the entity's constraints after the lookup
  and answers with the "Error: " body of a service failure.
- ReportEndpoints.TrafficReportController.UpdateReport: the request body is `@Valid`
  (`TrafficReportController.java:140`). If `TrafficReportRequest` carries constraints, an
  invalid body is refused with Spring's own 400 before the caller lookup and before the
  not-found and permission checks. The model instead checks the updated entity's constraints
  after both guards, so an invalid update of an unknown or foreign report answers with the
  not-found or permission error.
- ReportEndpoints.TrafficReportController.UploadReportImage: a request without the required
  `file` part (`TrafficReportController.java:194`) is refused by the framework with a 400
  before the handler runs. The model answers with a fixed message; the framework's error body
  is not modelled.
- ReportLedger.TrafficReportService.UpdateReport: the model checks the updated entity's
  constraints after the not-found and permission guards and, on failure, stores and sends
  nothing. In the source the `save` of a managed entity does not flush, so the entity's
  `@NotBlank`/`@Size` checks run at commit, after the broadcast at
  `TrafficReportService.java:115`. Subscribers then receive the invalid report before its
  transaction rolls back. That broadcast of a rolled-back update is not modelled.
- UserAccounts.UserService.UpdateUserPoints: requires the user to be stored, with the stored
  name, email and password. The source saves whatever object it is handed, and every caller
  in the source passes a user it has just loaded.

## Findings

| source | as written | input that shows it | evidently intended | confidence | as-written member | corrected member |
|---|---|---|---|---|---|---|
| Backend/src/main/java/com/raastabuzz/controller/TrafficReportController.java:223-227 | the image-info body is built with `Map.of`, which rejects a null value, so a report without an image makes the endpoint throw and answer 500 | any stored report whose image URL is null, such as one created from a request without an image | 200 with `hasImage` false and no URL | not executed | ReportEndpoints.ImageInfoAsWritten | ReportEndpoints.ImageInfoResponse |
