/**
 * The QuickLinks link store: the three in-memory tables and one method per
 * HTTP handler. Each handler runs to completion as one step; the session is
 * an explicit value passed in and, where a handler changes it, returned.
 * Clocks, random draws, request headers and the configured base URL are
 * parameters.
 */
module Store {
  import opened Types
  import opened Views
  import Trial
  import ShortCode

  /** POST /api/auth/signup's `user` payload. */
  datatype SignupView = SignupView(id: int, email: string, name: string, plan: string, trialDays: int)

  /** POST /api/auth/login's `user` payload. */
  datatype LoginView = LoginView(id: int, email: string, name: string, role: Role, plan: string, trial: Trial.TrialStatus)

  /** GET /api/auth/me's payload. */
  datatype MeView = MeView(id: int, email: string, name: string, role: Role, plan: string, trial: Trial.TrialStatus, createdAt: int)

  /** What GET /:shortCode does: hand over to the page routes, answer 404, or redirect. */
  datatype Resolution = Defer | NotFound | Redirect(status: int, target: string)

  /** `new Date(user.trialEnds)` in the quota check: a null trial end is the epoch. */
  function TrialEndMs(u: User): (r: int)
    ensures u.trialEnds.None? ==> r == 0
    ensures u.trialEnds.Some? ==> r == u.trialEnds.value
  {
    match u.trialEnds
    case None => 0
    case Some(t) => t
  }

  /**
   * The free-plan quota: a free user who already owns three or more links
   * is refused, with "trial expired" once the trial end has passed and
   * "limit reached" before that. Other plans are never refused.
   */
  function QuotaCheck(u: User, owned: nat, now: int): (r: Option<Error>)
    ensures r.Some? <==> u.plan == FREE_PLAN && owned >= FREE_LINK_LIMIT
    ensures r.Some? ==> (r.value == TrialExpired <==> TrialEndMs(u) <= now)
    ensures r.Some? ==> r.value == TrialExpired || r.value == LimitReached
  {
    if u.plan == FREE_PLAN && owned >= FREE_LINK_LIMIT then
      Some(if TrialEndMs(u) <= now then TrialExpired else LimitReached)
    else None
  }

  /** A free user who passes the quota ends up with at most three links. */
  lemma QuotaBoundsFreeUser(urls: seq<Url>, u: User, link: Url, now: int)
    requires link.userId == u.id && u.plan == FREE_PLAN
    requires QuotaCheck(u, |OwnedBy(urls, u.id)|, now).None?
    ensures |OwnedBy(urls + [link], u.id)| <= FREE_LINK_LIMIT
  {
    AppendOwnedLink(urls, link, u.id);
  }

  /** The record shorten appends. */
  function NewLink(urls: seq<Url>, userId: int, longUrl: string, draws: seq<real>, base: string, now: int): (r: Url)
    requires ShortCode.ValidDraws(draws)
    ensures r.id == |urls| + 1 && r.userId == userId && r.longUrl == longUrl
    ensures ShortCode.ValidCode(r.shortCode) && r.shortUrl == base + "/" + r.shortCode
    ensures r.shortCode == ShortCode.CodeFor(draws) && r.createdAt == now
    ensures r.clicks == 0 && r.uniqueVisitors == 0
  {
    var code := ShortCode.CodeFor(draws);
    Url(|urls| + 1, userId, longUrl, code, base + "/" + code, now, 0, 0)
  }

  /**
   * Link ids are `urls.length + 1`, so they come back after a delete:
   * once the newest link is deleted, the next link gets its id and its
   * listing counts the deleted link's click records as its own.
   */
  lemma ReusedIdInheritsClicks(urls: seq<Url>, clicks: seq<Click>, c: Click, userId: int,
                               longUrl: string, draws: seq<real>, base: string, now: int)
    requires |urls| > 0 && urls[|urls| - 1].id == |urls|
    requires ShortCode.ValidDraws(draws)
    requires c in clicks && c.urlId == urls[|urls| - 1].id
    ensures var kept := urls[..|urls| - 1];
            var link := NewLink(kept, userId, longUrl, draws, base, now);
            && link.id == urls[|urls| - 1].id
            && WithStats(link, clicks).clicks >= 1
  {
    var kept := urls[..|urls| - 1];
    var link := NewLink(kept, userId, longUrl, draws, base, now);
    assert c in ClicksOf(clicks, link.id);
  }

  class LinkStore {
    var users: seq<User>
    var urls: seq<Url>
    var clicks: seq<Click>

    ghost predicate Valid()
      reads this
    {
      UsersWellFormed(users) && ClicksNumbered(clicks)
    }

    /**
     * Server start-up: empty tables and the admin account, whose email and
     * password come from ADMIN_EMAIL and ADMIN_PASSWORD when those are set
     * and non-empty.
     */
    constructor (adminEmail: Option<string>, adminPassword: Option<string>, now: int)
      ensures Valid()
      ensures users == [User(1, OrDefault(adminEmail, "admin@quicklinks.com"),
                             OrDefault(adminPassword, "admin123"), "Admin", AdminRole,
                             "unlimited", None, now, None)]
      ensures urls == [] && clicks == []
    {
      users := [User(1, OrDefault(adminEmail, "admin@quicklinks.com"),
                     OrDefault(adminPassword, "admin123"), "Admin", AdminRole,
                     "unlimited", None, now, None)];
      urls := [];
      clicks := [];
    }

    /** POST /api/auth/signup. */
    method SignUp(session: Session, email: string, password: string, name: string, now: int)
      returns (r: Result<SignupView>, session': Session)
      requires Valid()
      modifies this
      ensures Valid()
      ensures urls == old(urls) && clicks == old(clicks)
      ensures email == "" || password == "" ==>
                r == Err(MissingCredentials) && users == old(users) && session' == session
      ensures email != "" && password != "" && EmailRegistered(old(users), email) ==>
                r == Err(EmailTaken) && users == old(users) && session' == session
      ensures email != "" && password != "" && !EmailRegistered(old(users), email) ==>
                var u := NewUser(old(users), email, password, name, now);
                && users == old(users) + [u]
                && session' == Session(u.id, email, UserRole)
                && r == Ok(SignupView(u.id, email, name, FREE_PLAN, TRIAL_DAYS))
    {
      if email == "" || password == "" {
        return Err(MissingCredentials), session;
      }
      if EmailRegistered(users, email) {
        return Err(EmailTaken), session;
      }
      var u := NewUser(users, email, password, name, now);
      SignupKeepsWellFormed(users, email, password, name, now);
      users := users + [u];
      session' := Session(u.id, u.email, u.role);
      r := Ok(SignupView(u.id, u.email, u.name, u.plan, TRIAL_DAYS));
    }

    /** POST /api/auth/login: the first credential match gets its login time updated. */
    method LogIn(session: Session, email: string, password: string, now: int)
      returns (r: Result<LoginView>, session': Session)
      requires Valid()
      modifies this
      ensures Valid()
      ensures urls == old(urls) && clicks == old(clicks)
      ensures email == "" || password == "" ==>
                r == Err(MissingCredentials) && users == old(users) && session' == session
      ensures email != "" && password != "" && FindUserByCredentials(old(users), email, password).None? ==>
                r == Err(InvalidCredentials) && users == old(users) && session' == session
      ensures email != "" && password != "" && FindUserByCredentials(old(users), email, password).Some? ==>
                var k := FindUserByCredentials(old(users), email, password).value;
                var u := old(users)[k];
                && users == old(users)[k := u.(lastLogin := Some(now))]
                && session' == Session(u.id, u.email, u.role)
                && r == Ok(LoginView(u.id, u.email, u.name, u.role, u.plan, Trial.StatusOf(u.trialEnds, now)))
    {
      if email == "" || password == "" {
        return Err(MissingCredentials), session;
      }
      var found := FindUserByCredentials(users, email, password);
      if found.None? {
        return Err(InvalidCredentials), session;
      }
      var k := found.value;
      var u := users[k];
      UpdateKeepsWellFormed(users, k, u.(lastLogin := Some(now)));
      users := users[k := u.(lastLogin := Some(now))];
      session' := Session(u.id, u.email, u.role);
      r := Ok(LoginView(u.id, u.email, u.name, u.role, u.plan, Trial.StatusOf(u.trialEnds, now)));
    }

    /** GET /api/auth/me. */
    method Me(session: Session, now: int) returns (r: Result<MeView>)
      ensures !IsAuthenticated(session) ==> r == Err(NotAuthenticated)
      ensures IsAuthenticated(session) && FindUserById(users, session.userId).None? ==> r == Err(UserNotFound)
      ensures IsAuthenticated(session) && FindUserById(users, session.userId).Some? ==>
                var u := users[FindUserById(users, session.userId).value];
                && u.id == session.userId
                && r == Ok(MeView(u.id, u.email, u.name, u.role, u.plan, Trial.StatusOf(u.trialEnds, now), u.createdAt))
    {
      if !IsAuthenticated(session) {
        return Err(NotAuthenticated);
      }
      var found := FindUserById(users, session.userId);
      if found.None? {
        return Err(UserNotFound);
      }
      var u := users[found.value];
      r := Ok(MeView(u.id, u.email, u.name, u.role, u.plan, Trial.StatusOf(u.trialEnds, now), u.createdAt));
    }

    /**
     * POST /api/shorten. `draws` are the six random numbers the code
     * generator consumes and `base` the configured public origin.
     */
    method Shorten(session: Session, longUrl: string, draws: seq<real>, base: string, now: int)
      returns (r: Result<Url>)
      requires Valid() && ShortCode.ValidDraws(draws)
      modifies this
      ensures Valid()
      ensures users == old(users) && clicks == old(clicks)
      ensures !IsAuthenticated(session) ==> r == Err(NotAuthenticated) && urls == old(urls)
      ensures IsAuthenticated(session) && longUrl == "" ==> r == Err(UrlRequired) && urls == old(urls)
      ensures IsAuthenticated(session) && longUrl != "" && FindUserById(old(users), session.userId).None? ==>
                r == Err(ServerError) && urls == old(urls)
      ensures IsAuthenticated(session) && longUrl != "" && FindUserById(old(users), session.userId).Some? ==>
                var u := old(users)[FindUserById(old(users), session.userId).value];
                var refused := QuotaCheck(u, |OwnedBy(old(urls), session.userId)|, now);
                && (refused.Some? ==> r == Err(refused.value) && urls == old(urls))
                && (refused.None? ==>
                      var link := NewLink(old(urls), session.userId, longUrl, draws, base, now);
                      r == Ok(link) && urls == old(urls) + [link])
    {
      if !IsAuthenticated(session) {
        return Err(NotAuthenticated);
      }
      if longUrl == "" {
        return Err(UrlRequired);
      }
      var found := FindUserById(users, session.userId);
      if found.None? {
        return Err(ServerError);
      }
      var refused := QuotaCheck(users[found.value], |OwnedBy(urls, session.userId)|, now);
      if refused.Some? {
        return Err(refused.value);
      }
      var code := ShortCode.Generate(draws);
      var link := Url(|urls| + 1, session.userId, longUrl, code, base + "/" + code, now, 0, 0);
      urls := urls + [link];
      r := Ok(link);
    }

    /** GET /api/urls. */
    method ListUrls(session: Session) returns (r: Result<seq<Url>>)
      ensures !IsAuthenticated(session) ==> r == Err(NotAuthenticated)
      ensures IsAuthenticated(session) ==> r == Ok(ListWithStats(urls, clicks, session.userId))
    {
      if !IsAuthenticated(session) {
        return Err(NotAuthenticated);
      }
      r := Ok(ListWithStats(urls, clicks, session.userId));
    }

    /** DELETE /api/urls/:id: splices out the first link with that id owned by the caller. */
    method DeleteUrl(session: Session, id: int) returns (r: Result<()>)
      requires Valid()
      modifies this
      ensures Valid()
      ensures users == old(users) && clicks == old(clicks)
      ensures !IsAuthenticated(session) ==> r == Err(NotAuthenticated) && urls == old(urls)
      ensures IsAuthenticated(session) && FindOwnedUrl(old(urls), id, session.userId).None? ==>
                r == Err(UrlNotFound) && urls == old(urls)
      ensures IsAuthenticated(session) && FindOwnedUrl(old(urls), id, session.userId).Some? ==>
                var k := FindOwnedUrl(old(urls), id, session.userId).value;
                r == Ok(()) && urls == old(urls)[..k] + old(urls)[k + 1..]
    {
      if !IsAuthenticated(session) {
        return Err(NotAuthenticated);
      }
      var found := FindOwnedUrl(urls, id, session.userId);
      if found.None? {
        return Err(UrlNotFound);
      }
      var k := found.value;
      urls := urls[..k] + urls[k + 1..];
      r := Ok(());
    }

    /** GET /api/admin/stats. */
    method AdminStats(session: Session, now: int, dayOf: int -> int) returns (r: Result<Stats>)
      ensures !IsAdmin(session) ==> r == Err(AdminRequired)
      ensures IsAdmin(session) ==> r == Ok(StatsOf(users, urls, clicks, now, dayOf))
    {
      if !IsAdmin(session) {
        return Err(AdminRequired);
      }
      r := Ok(StatsOf(users, urls, clicks, now, dayOf));
    }

    /** GET /api/admin/users. */
    method AdminUsers(session: Session) returns (r: Result<seq<UserSummary>>)
      ensures !IsAdmin(session) ==> r == Err(AdminRequired)
      ensures IsAdmin(session) ==> r == Ok(AdminUserRows(users, urls, clicks))
    {
      if !IsAdmin(session) {
        return Err(AdminRequired);
      }
      r := Ok(AdminUserRows(users, urls, clicks));
    }

    /** GET /api/admin/urls. */
    method AdminUrls(session: Session) returns (r: Result<seq<UrlSummary>>)
      ensures !IsAdmin(session) ==> r == Err(AdminRequired)
      ensures IsAdmin(session) ==> r == Ok(AdminUrlRows(users, urls, clicks))
    {
      if !IsAdmin(session) {
        return Err(AdminRequired);
      }
      r := Ok(AdminUrlRows(users, urls, clicks));
    }

    /** PUT /api/admin/users/:id/plan: stores the given plan verbatim on the first user with that id. */
    method SetPlan(session: Session, id: int, plan: string) returns (r: Result<()>)
      requires Valid()
      modifies this
      ensures Valid()
      ensures urls == old(urls) && clicks == old(clicks)
      ensures !IsAdmin(session) ==> r == Err(AdminRequired) && users == old(users)
      ensures IsAdmin(session) && FindUserById(old(users), id).None? ==>
                r == Err(UserNotFound) && users == old(users)
      ensures IsAdmin(session) && FindUserById(old(users), id).Some? ==>
                var k := FindUserById(old(users), id).value;
                r == Ok(()) && users == old(users)[k := old(users)[k].(plan := plan)]
    {
      if !IsAdmin(session) {
        return Err(AdminRequired);
      }
      var found := FindUserById(users, id);
      if found.None? {
        return Err(UserNotFound);
      }
      var k := found.value;
      UpdateKeepsWellFormed(users, k, users[k].(plan := plan));
      users := users[k := users[k].(plan := plan)];
      r := Ok(());
    }

    /**
     * GET /:shortCode. Reserved page names are handed on untouched; an
     * unknown code is a 404; a known code records one click and redirects
     * permanently to the stored long URL.
     */
    method Resolve(shortCode: string, ip: string, userAgent: string, referrer: string, now: int)
      returns (r: Resolution)
      requires Valid()
      modifies this
      ensures Valid()
      ensures users == old(users) && urls == old(urls)
      ensures shortCode in RESERVED_NAMES ==> r == Defer && clicks == old(clicks)
      ensures shortCode !in RESERVED_NAMES && FindUrlByCode(urls, shortCode).None? ==>
                r == NotFound && clicks == old(clicks)
      ensures shortCode !in RESERVED_NAMES && FindUrlByCode(urls, shortCode).Some? ==>
                var link := urls[FindUrlByCode(urls, shortCode).value];
                && r == Redirect(301, link.longUrl)
                && clicks == old(clicks) + [Click(|old(clicks)| + 1, link.id, now, ip, userAgent, referrer)]
    {
      if shortCode in RESERVED_NAMES {
        return Defer;
      }
      var found := FindUrlByCode(urls, shortCode);
      if found.None? {
        return NotFound;
      }
      var link := urls[found.value];
      clicks := clicks + [Click(|clicks| + 1, link.id, now, ip, userAgent, referrer)];
      r := Redirect(301, link.longUrl);
    }
  }
}
