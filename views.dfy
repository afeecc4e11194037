/**
 * The read side of the link store: the lookups the handlers perform
 * (`find` / `findIndex` by credentials, id or code), the per-link click
 * statistics, the admin reports, and the shape the user table keeps.
 * Link ids are never assumed unique: every lookup takes the first match.
 */
module Views {
  import opened Types
  import opened Seqs
  import Trial

  // ---------------------------------------------------------------------
  // Lookups
  // ---------------------------------------------------------------------

  /** `users.find(u => u.email === email && u.password === password)`. */
  function FindUserByCredentials(users: seq<User>, email: string, password: string): (r: Option<nat>)
    ensures r.Some? ==> r.value < |users| && users[r.value].email == email && users[r.value].password == password
    ensures r.Some? ==> forall j :: 0 <= j < r.value ==> users[j].email != email || users[j].password != password
    ensures r.None? <==> forall j :: 0 <= j < |users| ==> users[j].email != email || users[j].password != password
  {
    FindIndex(users, (u: User) => u.email == email && u.password == password)
  }

  /** `users.find(u => u.email === email)` used as a truth value. */
  function EmailRegistered(users: seq<User>, email: string): (r: bool)
    ensures r <==> exists j :: 0 <= j < |users| && users[j].email == email
  {
    FindIndex(users, (u: User) => u.email == email).Some?
  }

  /** `users.find(u => u.id === id)`: the first user carrying that id. */
  function FindUserById(users: seq<User>, id: int): (r: Option<nat>)
    ensures r.Some? ==> r.value < |users| && users[r.value].id == id
    ensures r.Some? ==> forall j :: 0 <= j < r.value ==> users[j].id != id
    ensures r.None? <==> forall j :: 0 <= j < |users| ==> users[j].id != id
  {
    FindIndex(users, (u: User) => u.id == id)
  }

  /** `urls.find(u => u.shortCode === code)`: the first link with that code. */
  function FindUrlByCode(urls: seq<Url>, code: string): (r: Option<nat>)
    ensures r.Some? ==> r.value < |urls| && urls[r.value].shortCode == code
    ensures r.Some? ==> forall j :: 0 <= j < r.value ==> urls[j].shortCode != code
    ensures r.None? <==> forall j :: 0 <= j < |urls| ==> urls[j].shortCode != code
  {
    FindIndex(urls, (u: Url) => u.shortCode == code)
  }

  /** `urls.find(u => u.id === id)`: the first link with that id. */
  function FindUrlById(urls: seq<Url>, id: int): (r: Option<nat>)
    ensures r.Some? ==> r.value < |urls| && urls[r.value].id == id
    ensures r.Some? ==> forall j :: 0 <= j < r.value ==> urls[j].id != id
    ensures r.None? <==> forall j :: 0 <= j < |urls| ==> urls[j].id != id
  {
    FindIndex(urls, (u: Url) => u.id == id)
  }

  /** `urls.findIndex(u => u.id == id && u.userId === userId)`: delete's target. */
  function FindOwnedUrl(urls: seq<Url>, id: int, userId: int): (r: Option<nat>)
    ensures r.Some? ==> r.value < |urls| && urls[r.value].id == id && urls[r.value].userId == userId
    ensures r.Some? ==> forall j :: 0 <= j < r.value ==> urls[j].id != id || urls[j].userId != userId
    ensures r.None? <==> forall j :: 0 <= j < |urls| ==> urls[j].id != id || urls[j].userId != userId
  {
    FindIndex(urls, (u: Url) => u.id == id && u.userId == userId)
  }

  // ---------------------------------------------------------------------
  // The user table
  // ---------------------------------------------------------------------

  /**
   * What the user table always satisfies: the bootstrap admin first, every
   * later user a plain user, ids equal to position + 1 (users are appended
   * with id `users.length + 1` and never removed) and no email twice.
   */
  predicate UsersWellFormed(users: seq<User>)
  {
    && |users| >= 1
    && users[0].role == AdminRole
    && (forall i :: 1 <= i < |users| ==> users[i].role == UserRole)
    && (forall i :: 0 <= i < |users| ==> users[i].id == i + 1)
    && (forall i, j :: 0 <= i < j < |users| ==> users[i].email != users[j].email)
  }

  /** Clicks are appended with id `clicks.length + 1` and never removed. */
  predicate ClicksNumbered(clicks: seq<Click>)
  {
    forall i :: 0 <= i < |clicks| ==> clicks[i].id == i + 1
  }

  /** The record signup appends: a plain user on the free plan with a 30-day trial. */
  function NewUser(users: seq<User>, email: string, password: string, name: string, now: int): (u: User)
    ensures u.id == |users| + 1 && u.role == UserRole && u.plan == FREE_PLAN
    ensures u.email == email && u.password == password && u.name == name
    ensures u.trialEnds == Some(now + TRIAL_DAYS * DAY_MS)
    ensures u.createdAt == now && u.lastLogin == Some(now)
    ensures Trial.StatusOf(u.trialEnds, now) == Trial.TrialStatus(true, false, TRIAL_DAYS)
  {
    Trial.FreshTrial(now);
    User(|users| + 1, email, password, name, UserRole, FREE_PLAN,
         Some(now + TRIAL_DAYS * DAY_MS), now, Some(now))
  }

  /** Signup keeps the table well formed when it only appends a fresh email. */
  lemma SignupKeepsWellFormed(users: seq<User>, email: string, password: string, name: string, now: int)
    requires UsersWellFormed(users) && !EmailRegistered(users, email)
    ensures UsersWellFormed(users + [NewUser(users, email, password, name, now)])
  {
  }

  /**
   * After a signup, logging in with the same credentials finds exactly the
   * new user, whose trial is active with 30 days left.
   */
  lemma SignupThenLogin(users: seq<User>, email: string, password: string, name: string, now: int)
    requires UsersWellFormed(users) && !EmailRegistered(users, email)
    ensures FindUserByCredentials(users + [NewUser(users, email, password, name, now)], email, password) == Some(|users|)
  {
    var users' := users + [NewUser(users, email, password, name, now)];
    assert users'[|users|].email == email && users'[|users|].password == password;
    assert forall j :: 0 <= j < |users| ==> users'[j].email != email;
  }

  /** Because emails are unique, a credential match is the only user with that email. */
  lemma CredentialsIdentifyUser(users: seq<User>, email: string, password: string, k: nat)
    requires UsersWellFormed(users)
    requires FindUserByCredentials(users, email, password) == Some(k)
    ensures forall j :: 0 <= j < |users| && users[j].email == email ==> j == k
  {
  }

  /** In a well-formed table the user with id `id` sits at position id - 1. */
  lemma UserIdLookup(users: seq<User>, id: int)
    requires UsersWellFormed(users)
    ensures FindUserById(users, id) == if 1 <= id <= |users| then Some(id - 1) else None
  {
    if 1 <= id <= |users| {
      assert users[id - 1].id == id;
    }
  }

  /** Overwriting the login time or the plan of one user keeps the table well formed. */
  lemma UpdateKeepsWellFormed(users: seq<User>, k: nat, u: User)
    requires UsersWellFormed(users) && k < |users|
    requires u.id == users[k].id && u.email == users[k].email && u.role == users[k].role
    ensures UsersWellFormed(users[k := u])
  {
  }

  // ---------------------------------------------------------------------
  // Per-link statistics (GET /api/urls)
  // ---------------------------------------------------------------------

  /** `urls.filter(u => u.userId === userId)`. */
  function OwnedBy(urls: seq<Url>, userId: int): (r: seq<Url>)
    ensures forall u :: u in r <==> u in urls && u.userId == userId
  {
    Filter(urls, (u: Url) => u.userId == userId)
  }

  /** `clicks.filter(c => c.urlId === urlId)`. */
  function ClicksOf(clicks: seq<Click>, urlId: int): (r: seq<Click>)
    ensures forall c :: c in r <==> c in clicks && c.urlId == urlId
  {
    Filter(clicks, (c: Click) => c.urlId == urlId)
  }

  /** The distinct source addresses of some clicks: `new Set(cs.map(c => c.ip))`. */
  function Ips(cs: seq<Click>): (r: set<string>)
    ensures r == set c | c in cs :: c.ip
  {
    if cs == [] then {}
    else
      var rest := Ips(cs[1..]);
      assert forall c :: c in cs <==> c == cs[0] || c in cs[1..];
      {cs[0].ip} + rest
  }

  /** There are never more distinct addresses than clicks. */
  lemma {:induction false} IpsAtMost(cs: seq<Click>)
    ensures |Ips(cs)| <= |cs|
  {
    if cs != [] {
      IpsAtMost(cs[1..]);
      assert Ips(cs) == {cs[0].ip} + Ips(cs[1..]);
    }
  }

  /** One more click adds its address to the distinct set and nothing else. */
  lemma IpsAppend(cs: seq<Click>, c: Click)
    ensures Ips(cs + [c]) == Ips(cs) + {c.ip}
  {
    assert forall d :: d in cs + [c] <==> d in cs || d == c;
  }

  /**
   * A link as the listing shows it: the stored record with `clicks` and
   * `uniqueVisitors` replaced by the number of its click records and the
   * number of distinct addresses among them.
   */
  function WithStats(url: Url, clicks: seq<Click>): (r: Url)
    ensures r.(clicks := url.clicks, uniqueVisitors := url.uniqueVisitors) == url
    ensures r.clicks == |ClicksOf(clicks, url.id)|
    ensures r.uniqueVisitors == |set c | c in ClicksOf(clicks, url.id) :: c.ip|
    ensures r.uniqueVisitors <= r.clicks
    ensures r.clicks > 0 <==> r.uniqueVisitors > 0
  {
    var own := ClicksOf(clicks, url.id);
    IpsAtMost(own);
    assert own != [] ==> own[0].ip in Ips(own);
    url.(clicks := |own|, uniqueVisitors := |Ips(own)|)
  }

  /** The GET /api/urls payload: the caller's links, in store order, with statistics. */
  function ListWithStats(urls: seq<Url>, clicks: seq<Click>, userId: int): (r: seq<Url>)
    ensures |r| == |OwnedBy(urls, userId)|
    ensures forall i :: 0 <= i < |r| ==> r[i].userId == userId && r[i].uniqueVisitors <= r[i].clicks
    ensures forall u :: u in urls && u.userId == userId ==> WithStats(u, clicks) in r
  {
    var owned := OwnedBy(urls, userId);
    var r := seq(|owned|, i requires 0 <= i < |owned| => WithStats(owned[i], clicks));
    assert forall i :: 0 <= i < |owned| ==> owned[i] in owned;
    forall u | u in urls && u.userId == userId
      ensures WithStats(u, clicks) in r
    {
      var i :| 0 <= i < |owned| && owned[i] == u;
      assert r[i] == WithStats(u, clicks);
    }
    r
  }

  /**
   * Listing is order-preserving: a link appended to the store shows up
   * last in its owner's listing and in nobody else's.
   */
  lemma ListAfterAppend(urls: seq<Url>, clicks: seq<Click>, userId: int, u: Url)
    ensures ListWithStats(urls + [u], clicks, userId)
         == ListWithStats(urls, clicks, userId) + (if u.userId == userId then [WithStats(u, clicks)] else [])
  {
    FilterAppend(urls, [u], (x: Url) => x.userId == userId);
  }

  /** A link created by shorten adds exactly one entry to its owner's links and none to anyone else's. */
  lemma AppendOwnedLink(urls: seq<Url>, u: Url, userId: int)
    ensures OwnedBy(urls + [u], userId) == OwnedBy(urls, userId) + (if u.userId == userId then [u] else [])
  {
    FilterAppend(urls, [u], (x: Url) => x.userId == userId);
  }

  /**
   * Deleting the link at `k` removes one link of its owner, keeps the order
   * of the rest, and leaves every other user's links as they were.
   */
  lemma RemoveOwnedLink(urls: seq<Url>, k: nat, userId: int)
    requires k < |urls|
    ensures OwnedBy(urls[..k] + urls[k + 1..], userId)
         == OwnedBy(urls[..k], userId) + OwnedBy(urls[k + 1..], userId)
    ensures |OwnedBy(urls[..k] + urls[k + 1..], userId)| + (if urls[k].userId == userId then 1 else 0)
         == |OwnedBy(urls, userId)|
  {
    var p := (x: Url) => x.userId == userId;
    assert urls == urls[..k] + [urls[k]] + urls[k + 1..];
    FilterAppend(urls[..k], urls[k + 1..], p);
    FilterAppend(urls[..k] + [urls[k]], urls[k + 1..], p);
    FilterAppend(urls[..k], [urls[k]], p);
  }

  /**
   * A resolved visit adds one click to the visited link's count and its
   * address to its visitors, and changes no other link's statistics.
   */
  lemma RecordClick(clicks: seq<Click>, c: Click, urlId: int)
    ensures ClicksOf(clicks + [c], urlId) == ClicksOf(clicks, urlId) + (if c.urlId == urlId then [c] else [])
    ensures Ips(ClicksOf(clicks + [c], urlId)) == Ips(ClicksOf(clicks, urlId)) + (if c.urlId == urlId then {c.ip} else {})
  {
    FilterAppend(clicks, [c], (x: Click) => x.urlId == urlId);
    if c.urlId == urlId {
      IpsAppend(ClicksOf(clicks, urlId), c);
    }
  }

  /** A link visited once shows one click and one visitor in its owner's listing. */
  lemma OneVisitListing(link: Url, c: Click)
    requires c.urlId == link.id
    ensures ListWithStats([link], [c], link.userId) == [link.(clicks := 1, uniqueVisitors := 1)]
  {
    ListAfterAppend([], [c], link.userId, link);
    assert [] + [link] == [link];
    assert ClicksOf([c], link.id) == [c];
    assert Ips([c]) == {c.ip};
  }

  // ---------------------------------------------------------------------
  // Admin reports
  // ---------------------------------------------------------------------

  datatype Stats = Stats(
    totalUsers: nat,
    paidUsers: nat,
    totalUrls: nat,
    totalClicks: nat,
    newUsersToday: nat,
    mrr: int)

  /** `users.filter(u => u.role !== 'admin')`. */
  function NonAdmins(users: seq<User>): (r: seq<User>)
    ensures forall u :: u in r <==> u in users && u.role != AdminRole
  {
    Filter(users, (u: User) => u.role != AdminRole)
  }

  /** `users.filter(u => u.plan === 'pro' || u.plan === 'business')`. */
  function PaidUsers(users: seq<User>): (r: seq<User>)
    ensures forall u :: u in r <==> u in users && IsPaid(u.plan)
  {
    Filter(users, (u: User) => IsPaid(u.plan))
  }

  /**
   * GET /api/admin/stats. `dayOf` maps a timestamp to its calendar day in
   * the server's time zone (what `toDateString` compares).
   */
  function StatsOf(users: seq<User>, urls: seq<Url>, clicks: seq<Click>, now: int, dayOf: int -> int): (r: Stats)
    ensures r.mrr == PRICE_PER_PAID_USER * r.paidUsers
    ensures r.totalUsers == |NonAdmins(users)| && r.paidUsers == |PaidUsers(users)|
    ensures r.totalUsers <= |users| && r.paidUsers <= |users| && r.newUsersToday <= |users|
    ensures r.totalUrls == |urls| && r.totalClicks == |clicks|
  {
    var paid := |PaidUsers(users)|;
    Stats(
      |NonAdmins(users)|,
      paid,
      |urls|,
      |clicks|,
      |Filter(users, (u: User) => dayOf(u.createdAt) == dayOf(now))|,
      paid * PRICE_PER_PAID_USER)
  }

  /** With the admin first and only plain users after it, the admin is the one user not counted. */
  lemma {:induction false} NonAdminsAreTheRest(users: seq<User>)
    requires UsersWellFormed(users)
    ensures NonAdmins(users) == users[1..]
  {
    var p := (u: User) => u.role != AdminRole;
    assert users == [users[0]] + users[1..];
    FilterAppend([users[0]], users[1..], p);
    FilterAll(users[1..], p);
  }

  /** A new user moves the revenue figure by 9 exactly when that user is on a paid plan. */
  lemma MrrOfNewUser(users: seq<User>, u: User, urls: seq<Url>, clicks: seq<Click>, now: int, dayOf: int -> int)
    ensures StatsOf(users + [u], urls, clicks, now, dayOf).mrr
         == StatsOf(users, urls, clicks, now, dayOf).mrr + (if IsPaid(u.plan) then PRICE_PER_PAID_USER else 0)
  {
    FilterAppend(users, [u], (x: User) => IsPaid(x.plan));
  }

  /**
   * Changing one user's plan keeps the user count and moves the paid count
   * by the old and new plans' paid status alone.
   */
  lemma PlanChangeStats(users: seq<User>, k: nat, plan: string, urls: seq<Url>, clicks: seq<Click>, now: int, dayOf: int -> int)
    requires k < |users|
    ensures var after := StatsOf(users[k := users[k].(plan := plan)], urls, clicks, now, dayOf);
            var before := StatsOf(users, urls, clicks, now, dayOf);
            && after.totalUsers == before.totalUsers
            && after.paidUsers + (if IsPaid(users[k].plan) then 1 else 0)
               == before.paidUsers + (if IsPaid(plan) then 1 else 0)
  {
    var u := users[k].(plan := plan);
    FilterUpdateCount(users, k, u, (x: User) => x.role != AdminRole);
    FilterUpdateCount(users, k, u, (x: User) => IsPaid(x.plan));
  }

  /** The user a link belongs to, through the first link carrying a click's `urlId`. */
  function ClickOwner(urls: seq<Url>, urlId: int): (r: Option<int>)
    ensures r.Some? <==> exists j :: 0 <= j < |urls| && urls[j].id == urlId
    ensures r.Some? ==> exists j :: 0 <= j < |urls| && urls[j].id == urlId && urls[j].userId == r.value
                                    && forall i :: 0 <= i < j ==> urls[i].id != urlId
  {
    match FindUrlById(urls, urlId)
    case None => None
    case Some(k) => Some(urls[k].userId)
  }

  datatype UserSummary = UserSummary(
    id: int,
    email: string,
    name: string,
    role: Role,
    plan: string,
    trialEnds: Option<int>,
    createdAt: int,
    lastLogin: Option<int>,
    totalUrls: nat,
    totalClicks: nat)

  /** One row of GET /api/admin/users. */
  function SummaryOf(u: User, urls: seq<Url>, clicks: seq<Click>): (r: UserSummary)
    ensures r.id == u.id && r.email == u.email && r.name == u.name && r.role == u.role
    ensures r.plan == u.plan && r.trialEnds == u.trialEnds
    ensures r.createdAt == u.createdAt && r.lastLogin == u.lastLogin
    ensures r.totalUrls == |OwnedBy(urls, u.id)| && r.totalClicks <= |clicks|
    ensures r.totalClicks == |Filter(clicks, (c: Click) => ClickOwner(urls, c.urlId) == Some(u.id))|
    ensures forall c :: c in clicks && ClickOwner(urls, c.urlId) == Some(u.id) ==> r.totalClicks > 0
  {
    var mine := Filter(clicks, (c: Click) => ClickOwner(urls, c.urlId) == Some(u.id));
    assert forall c :: c in clicks && ClickOwner(urls, c.urlId) == Some(u.id) ==> c in mine;
    UserSummary(u.id, u.email, u.name, u.role, u.plan, u.trialEnds, u.createdAt, u.lastLogin,
                |OwnedBy(urls, u.id)|, |mine|)
  }

  /** GET /api/admin/users: every non-admin user, in table order, with totals. */
  function AdminUserRows(users: seq<User>, urls: seq<Url>, clicks: seq<Click>): (r: seq<UserSummary>)
    ensures |r| == |NonAdmins(users)|
    ensures forall i :: 0 <= i < |r| ==> r[i] == SummaryOf(NonAdmins(users)[i], urls, clicks)
    ensures forall i :: 0 <= i < |r| ==> r[i].role != AdminRole && r[i].totalClicks <= |clicks|
  {
    var rest := NonAdmins(users);
    assert forall i :: 0 <= i < |rest| ==> rest[i] in rest;
    seq(|rest|, i requires 0 <= i < |rest| => SummaryOf(rest[i], urls, clicks))
  }

  /** In a well-formed table the admin report lists users 2, 3, ... in order. */
  lemma AdminUserRowsOrder(users: seq<User>, urls: seq<Url>, clicks: seq<Click>)
    requires UsersWellFormed(users)
    ensures |AdminUserRows(users, urls, clicks)| == |users| - 1
    ensures forall i :: 0 <= i < |users| - 1 ==> AdminUserRows(users, urls, clicks)[i].id == i + 2
  {
    NonAdminsAreTheRest(users);
  }

  /** The email shown for a link's owner: the first user with that id, or 'Unknown'. */
  function OwnerEmail(users: seq<User>, userId: int): (r: string)
    ensures (forall j :: 0 <= j < |users| ==> users[j].id != userId) ==> r == "Unknown"
    ensures (exists j :: 0 <= j < |users| && users[j].id == userId) ==>
              exists j :: 0 <= j < |users| && users[j].id == userId && users[j].email == r
  {
    match FindUserById(users, userId)
    case None => "Unknown"
    case Some(k) => users[k].email
  }

  /** In a well-formed table a link's owner email is found by position. */
  lemma OwnerEmailByPosition(users: seq<User>, userId: int)
    requires UsersWellFormed(users)
    ensures OwnerEmail(users, userId) == if 1 <= userId <= |users| then users[userId - 1].email else "Unknown"
  {
    UserIdLookup(users, userId);
  }

  datatype UrlSummary = UrlSummary(
    id: int,
    longUrl: string,
    shortCode: string,
    shortUrl: string,
    createdAt: int,
    userEmail: string,
    clicks: nat)

  /** GET /api/admin/urls: every link, in store order, with its owner and click count. */
  function AdminUrlRows(users: seq<User>, urls: seq<Url>, clicks: seq<Click>): (r: seq<UrlSummary>)
    ensures |r| == |urls|
    ensures forall i :: 0 <= i < |r| ==>
              && r[i].id == urls[i].id && r[i].longUrl == urls[i].longUrl
              && r[i].shortCode == urls[i].shortCode && r[i].shortUrl == urls[i].shortUrl
              && r[i].createdAt == urls[i].createdAt
              && r[i].userEmail == OwnerEmail(users, urls[i].userId)
              && r[i].clicks == |ClicksOf(clicks, urls[i].id)|
  {
    seq(|urls|, i requires 0 <= i < |urls| =>
      UrlSummary(urls[i].id, urls[i].longUrl, urls[i].shortCode, urls[i].shortUrl, urls[i].createdAt,
                 OwnerEmail(users, urls[i].userId), |ClicksOf(clicks, urls[i].id)|))
  }
}
