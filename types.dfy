/**
 * The records kept by the QuickLinks server, the session value that stands
 * in for the Express session, the error outcomes of the HTTP handlers and
 * the constants they use.
 */
module Types {

  datatype Option<T> = None | Some(value: T)

  /** The two role strings the server writes: 'admin' and 'user'. */
  datatype Role = AdminRole | UserRole

  /**
   * A registered account. Timestamps are milliseconds since the epoch;
   * `trialEnds` is absent (null) for the bootstrap admin, and so is
   * `lastLogin` until the admin first logs in.
   */
  datatype User = User(
    id: int,
    email: string,
    password: string,
    name: string,
    role: Role,
    plan: string,
    trialEnds: Option<int>,
    createdAt: int,
    lastLogin: Option<int>)

  /**
   * A shortened link as stored. `clicks` and `uniqueVisitors` are stored
   * as 0 and are overwritten with computed values whenever links are listed.
   */
  datatype Url = Url(
    id: int,
    userId: int,
    longUrl: string,
    shortCode: string,
    shortUrl: string,
    createdAt: int,
    clicks: nat,
    uniqueVisitors: nat)

  /** One recorded visit of a short link. */
  datatype Click = Click(
    id: int,
    urlId: int,
    clickedAt: int,
    ip: string,
    userAgent: string,
    referrer: string)

  /** The per-client session: empty, or bound to a user id, email and role. */
  datatype Session = Anonymous | Session(userId: int, email: string, role: Role)

  /** The error responses of the handlers, one per distinct message. */
  datatype Error =
    | MissingCredentials   // 400 'Email and password required'
    | EmailTaken           // 400 'Email already registered'
    | InvalidCredentials   // 401 'Invalid credentials'
    | NotAuthenticated     // 401 'Not authenticated'
    | AdminRequired        // 403 'Admin access required'
    | UserNotFound         // 404 'User not found'
    | UrlRequired          // 400 'URL required'
    | TrialExpired         // 403 'Trial expired. Please upgrade.'
    | LimitReached         // 403 'Free plan limit reached. Upgrade for unlimited URLs.'
    | UrlNotFound          // 404 'URL not found'
    | ServerError          // 500: a handler dereferenced a missing user

  datatype Result<T> = Ok(value: T) | Err(error: Error)

  const DAY_MS: int := 1000 * 60 * 60 * 24
  const TRIAL_DAYS: int := 30
  const FREE_LINK_LIMIT: int := 3
  const PRICE_PER_PAID_USER: int := 9
  const CODE_LENGTH: int := 6
  const FREE_PLAN: string := "free"
  const RESERVED_NAMES: seq<string> := ["login", "signup", "dashboard", "admin", "pricing", "features"]

  /** A plan that is billed: 'pro' or 'business' ('unlimited' is not). */
  predicate IsPaid(plan: string)
  {
    plan == "pro" || plan == "business"
  }

  /** The `isAuthenticated` gate: the session carries a (truthy) user id. */
  predicate IsAuthenticated(s: Session)
    ensures s.Anonymous? ==> !IsAuthenticated(s)
    ensures s.Session? ==> (IsAuthenticated(s) <==> s.userId != 0)
  {
    s.Session? && s.userId != 0
  }

  /** The `isAdmin` gate: a truthy user id and the role 'admin'. */
  predicate IsAdmin(s: Session)
    ensures IsAdmin(s) <==> IsAuthenticated(s) && s.role == AdminRole
    ensures IsAdmin(s) ==> IsAuthenticated(s)
    ensures s.Session? && s.role == UserRole ==> !IsAdmin(s)
  {
    s.Session? && s.userId != 0 && s.role == AdminRole
  }

  /** Logging out destroys the session whatever it held. */
  function LogOut(s: Session): (r: Session)
    ensures !IsAuthenticated(r) && !IsAdmin(r)
  {
    Anonymous
  }

  /** `process.env.X || fallback`: an unset or empty variable gives the fallback. */
  function OrDefault(v: Option<string>, fallback: string): (r: string)
    ensures v.Some? && v.value != "" ==> r == v.value
    ensures v.None? || v.value == "" ==> r == fallback
  {
    if v.Some? && v.value != "" then v.value else fallback
  }
}
