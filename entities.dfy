/** The persisted records of the backend: traffic reports, votes, users, forum posts and forum
    comments, with the defaults their field initialisers give, what their constructors set,
    and the Bean Validation constraints declared on their fields.

    A record is a value; a Java setter followed by `save` is a record update written back to
    its table. Ids are positive once saved (IDENTITY columns start at 1); 0 stands for the null
    id of a record that has not been saved. Timestamps are milliseconds since the epoch and
    coordinates are micro-degrees. */
module Entities {
  import opened Wrappers
  import opened Text
  import opened Ordering

  datatype VoteType = Upvote | Downvote

  datatype Role = Contributor | Moderator

  datatype TrafficCategory =
    TrafficJam | Accident | RoadClosed | Checkpoint | Construction | Flooding | OtherCategory

  datatype Severity = Low | Medium | High | Critical

  datatype PostCategory = General | Tips | Safety | FeatureRequest

  /** The enum constant names, as @Enumerated(EnumType.STRING) stores them and JSON carries them. */
  function CategoryName(c: TrafficCategory): string
  {
    match c
    case TrafficJam => "TRAFFIC_JAM"
    case Accident => "ACCIDENT"
    case RoadClosed => "ROAD_CLOSED"
    case Checkpoint => "CHECKPOINT"
    case Construction => "CONSTRUCTION"
    case Flooding => "FLOODING"
    case OtherCategory => "OTHER"
  }

  function SeverityName(s: Severity): string
  {
    match s
    case Low => "LOW"
    case Medium => "MEDIUM"
    case High => "HIGH"
    case Critical => "CRITICAL"
  }

  function PostCategoryName(c: PostCategory): string
  {
    match c
    case General => "GENERAL"
    case Tips => "TIPS"
    case Safety => "SAFETY"
    case FeatureRequest => "FEATURE_REQUEST"
  }

  datatype TrafficReport = TrafficReport(
    id: int,
    title: string,
    description: Option<string>,
    category: TrafficCategory,
    severity: Severity,
    latitude: int,
    longitude: int,
    address: Option<string>,
    imageUrl: Option<string>,
    verified: bool,
    active: bool,
    upvotes: int,
    downvotes: int,
    createdAt: int,
    owner: int)

  /** Newest-first order on reports: a may be listed before b when it is at least as new. This
      is both `ORDER BY createdAt DESC` and the frontend comparator
      `(a, b) => new Date(b.createdAt) - new Date(a.createdAt)`. */
  predicate NewerOrSame(a: TrafficReport, b: TrafficReport)
  {
    a.createdAt >= b.createdAt
  }

  lemma NewerOrSameIsTotalPreorder()
    ensures TotalPreorder(NewerOrSame)
  {
  }

  /** Newest first. */
  ghost predicate NewestFirst(s: seq<TrafficReport>)
  {
    Sorted(s, NewerOrSame)
  }

  /** Selects the reports with the given id. */
  function SameId(id: int): TrafficReport -> bool
  {
    (r: TrafficReport) => r.id == id
  }

  /** What the field initialisers give a new report: unverified, active, no votes. */
  predicate HasReportDefaults(r: TrafficReport)
  {
    !r.verified && r.active && r.upvotes == 0 && r.downvotes == 0
  }

  /** The eight-argument constructor: sets the eight given fields and keeps every default. */
  function NewTrafficReport(title: string, description: Option<string>, category: TrafficCategory,
                            severity: Severity, latitude: int, longitude: int,
                            address: Option<string>, owner: int): (r: TrafficReport)
    ensures HasReportDefaults(r) && r.id == 0 && r.imageUrl.None?
    ensures r.title == title && r.description == description && r.category == category
    ensures r.severity == severity && r.latitude == latitude && r.longitude == longitude
    ensures r.address == address && r.owner == owner
  {
    TrafficReport(0, title, description, category, severity, latitude, longitude, address,
                  None, false, true, 0, 0, 0, owner)
  }

  function OptionalLength(s: Option<string>): nat
  {
    if s.Some? then |s.value| else 0
  }

  /** @NotBlank @Size(max = 200) title, @Size(max = 1000) description, @Size(max = 500) address;
      category, severity and the coordinates are required by their types. */
  predicate ValidTrafficReport(r: TrafficReport)
  {
    && !IsJavaBlank(r.title) && |r.title| <= 200
    && OptionalLength(r.description) <= 1000
    && OptionalLength(r.address) <= 500
  }

  datatype Vote = Vote(id: int, voteType: VoteType, createdAt: int, user: int, trafficReport: int)

  /** The three-argument constructor. */
  function NewVote(voteType: VoteType, user: int, trafficReport: int): (v: Vote)
    ensures v.voteType == voteType && v.user == user && v.trafficReport == trafficReport
    ensures v.id == 0
  {
    Vote(0, voteType, 0, user, trafficReport)
  }

  datatype User = User(
    id: int,
    name: string,
    email: string,
    password: string,
    role: Role,
    points: int,
    isActive: bool,
    createdAt: int)

  /** What the field initialisers give a new user. */
  predicate HasUserDefaults(u: User)
  {
    u.role == Contributor && u.points == 0 && u.isActive
  }

  /** The three-argument constructor: sets name, email and password and keeps the defaults. */
  function NewUser(name: string, email: string, password: string): (u: User)
    ensures HasUserDefaults(u) && u.id == 0
    ensures u.name == name && u.email == email && u.password == password
  {
    User(0, name, email, password, Contributor, 0, true, 0)
  }

  /** @NotBlank and @Size on name (100), email (150) and password (120), and @Email on the
      email. */
  predicate ValidUser(u: User)
  {
    && !IsJavaBlank(u.name) && |u.name| <= 100
    && !IsJavaBlank(u.email) && |u.email| <= 150 && IsEmailShaped(u.email)
    && !IsJavaBlank(u.password) && |u.password| <= 120
  }

  /** A character an unquoted local part may hold: an ASCII letter or digit, one of
      !#$%&'*+/=?^_`{|}~- or any character from U+0080 on. */
  predicate IsLocalPartChar(c: char)
  {
    IsAsciiUpper(c) || IsAsciiLower(c) || ('0' <= c <= '9') || IsAtomSymbol(c) || c >= '\U{0080}'
  }

  /** The symbols !#$%&'*+/=?^_`{|}~- */
  predicate IsAtomSymbol(c: char)
  {
    || c == '!' || ('#' <= c <= '\'') || c == '*' || c == '+' || c == '/' || c == '=' || c == '?'
    || c == '^' || c == '_' || c == '`' || ('{' <= c <= '~') || c == '-'
  }

  /** A character a domain label may hold besides an inner '-'. */
  predicate IsDomainChar(c: char)
  {
    c != '-' && IsLocalPartChar(c)
  }

  /** Local-part characters and dots, with no two dots in a row. */
  predicate AtomChars(s: string)
    decreases |s|
  {
    |s| == 0 ||
    ((s[0] == '.' || IsLocalPartChar(s[0]))
     && (s[0] == '.' && |s| > 1 ==> s[1] != '.')
     && AtomChars(s[1..]))
  }

  /** Non-empty pieces of local-part characters separated by single dots. */
  predicate IsDotAtom(s: string)
  {
    |s| > 0 && s[0] != '.' && s[|s| - 1] != '.' && AtomChars(s)
  }

  /** Domain characters, '-' and dots, where every dot sits between two domain characters. */
  predicate LabelChars(s: string)
    decreases |s|
  {
    |s| == 0 ||
    ((s[0] == '.' || s[0] == '-' || IsDomainChar(s[0]))
     && (s[0] == '.' && |s| > 1 ==> IsDomainChar(s[1]))
     && (|s| > 1 && s[1] == '.' ==> IsDomainChar(s[0]))
     && LabelChars(s[1..]))
  }

  /** Dot-separated labels that begin and end with a domain character, with '-' only inside. */
  predicate IsDomainName(s: string)
  {
    |s| > 0 && IsDomainChar(s[0]) && IsDomainChar(s[|s| - 1]) && LabelChars(s)
  }

  /** @Email for a non-empty address, split at its last '@' as Hibernate Validator splits it: a
      local part of at most 64 characters and a domain of at most 255. */
  predicate IsEmailShaped(s: string)
  {
    var k := LastIndexOf(s, '@');
    && 0 <= k
    && |s[..k]| <= 64 && IsDotAtom(s[..k])
    && |s[k + 1..]| <= 255 && IsDomainName(s[k + 1..])
  }

  /** An accepted address holds an '@' that is neither its first nor its last character. */
  lemma EmailShapeMeaning(s: string)
    ensures IsEmailShaped(s) ==> '@' in s && s[0] != '@' && s[|s| - 1] != '@'
  {
    if IsEmailShaped(s) {
      var k := LastIndexOf(s, '@');
      assert s[..k][0] == s[0];
      assert s[k + 1..][|s[k + 1..]| - 1] == s[|s| - 1];
    }
  }

  /** A domain never holds an '@'. */
  lemma {:induction false} NoAtInDomain(s: string)
    requires LabelChars(s)
    ensures forall i :: 0 <= i < |s| ==> s[i] != '@'
  {
    if |s| > 0 {
      NoAtInDomain(s[1..]);
      forall i | 1 <= i < |s| ensures s[i] != '@' {
        assert s[i] == s[1..][i - 1];
      }
    }
  }

  /** Joining a valid local part and a valid domain with an '@' gives an accepted address: no
      '@' can occur in a domain, so the joining one is the last. */
  lemma EmailFromParts(local: string, domain: string)
    requires |local| <= 64 && IsDotAtom(local) && |domain| <= 255 && IsDomainName(domain)
    ensures IsEmailShaped(local + "@" + domain)
  {
    var s := local + "@" + domain;
    var k := |local|;
    assert s[k] == '@' && s[..k] == local && s[k + 1..] == domain;
    NoAtInDomain(domain);
    forall j | k < j < |s| ensures s[j] != '@' {
      assert s[j] == domain[j - k - 1];
    }
    assert LastIndexOf(s, '@') == k;
  }

  /** Text with no '@' or with an empty side is refused. */
  lemma MalformedEmailsRefused()
    ensures !IsEmailShaped("not-an-email")
    ensures !IsEmailShaped("ana@") && !IsEmailShaped("@example.com")
  {
    assert '@' !in "not-an-email";
    EmailShapeMeaning("ana@");
    EmailShapeMeaning("@example.com");
  }

  /** ForumPost.java is not part of this model; these are the fields the forum code reads and
      writes. */
  datatype ForumPost = ForumPost(
    id: int,
    title: string,
    content: string,
    category: PostCategory,
    owner: int,
    active: bool,
    likes: int,
    replies: int,
    createdAt: int)

  datatype ForumComment = ForumComment(id: int, post: int, user: int, content: string, createdAt: int)

  /** The permission rule shared by the report and forum services: the caller owns the record
      or has the MODERATOR role. */
  predicate MayModify(owner: int, caller: User)
  {
    owner == caller.id || caller.role == Moderator
  }
}
