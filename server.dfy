/**
 * The plugin server's company-partitioned accounts: authentication of a
 * user on a computer against the companies' user tables, the plugin access
 * rules on an authenticated user, and per-company and global statistics.
 *
 * The companies are the loaded configuration's "companies" object, kept in
 * its insertion order as a sequence of (company id, company) pairs; each
 * company's users are a map from "<user>_<computer>" to the user record.
 * The clock is the parameter `now`; parsing an "expires" text as a
 * "%Y-%m-%d" date is the parameter `parse`, which yields `None` for a text
 * it does not accept.
 */
module Server {
  import opened Options
  import opened Catalog
  import opened StringOrder

  datatype Date = Date(year: int, month: int, day: int)

  /** A moment: a calendar date and the microseconds elapsed since its midnight. */
  datatype Instant = Instant(date: Date, sinceMidnight: nat)

  /** A user record; an absent "active" reads as false, an absent list as empty. */
  datatype User = User(
    apiKey: Option<string>,
    active: bool,
    expires: Option<string>,
    allowedPlugins: seq<string>)

  /** A company record; an absent "active" reads as false, absent "users" as empty. */
  datatype Company = Company(
    name: Option<string>,
    active: bool,
    createdAt: Option<string>,
    users: map<string, User>)

  type Companies = seq<(string, Company)>

  /** The outcome of an authentication attempt, one constructor per raised error. */
  datatype AuthResult =
    | NotFound
    | BadKey
    | Disabled
    | Expired
    | Ok(user: User, company: Company, companyId: string, userKey: string)

  datatype CompanyStats = CompanyStats(
    companyName: string,
    totalUsers: nat,
    activeUsers: nat,
    expiredUsers: nat,
    createdAt: Option<string>)

  /** No such company (`None`), a company without "name" (a raised KeyError), or its statistics. */
  datatype StatsOutcome = NoSuchCompany | NameMissing | Stats(stats: CompanyStats)

  datatype GlobalStats = GlobalStats(
    totalCompanies: nat,
    activeCompanies: nat,
    totalUsers: nat,
    activeUsers: nat,
    totalPlugins: nat)

  // ---------------------------------------------------------------------
  // Time and expiry

  predicate DateBefore(a: Date, b: Date)
  {
    a.year < b.year ||
    (a.year == b.year && (a.month < b.month || (a.month == b.month && a.day < b.day)))
  }

  /** `a > b` on moments. */
  predicate Later(a: Instant, b: Instant)
  {
    DateBefore(b.date, a.date) || (a.date == b.date && a.sinceMidnight > b.sinceMidnight)
  }

  /**
   * A non-empty "expires" text that parses to a date whose midnight is
   * already past. A missing, empty or unparseable text never expires.
   */
  predicate IsExpired(expires: Option<string>, parse: string -> Option<Date>, now: Instant)
  {
    expires.Some? && expires.value != "" &&
    parse(expires.value).Some? && Later(now, Instant(parse(expires.value).value, 0))
  }

  /** A user is already expired during the expiry day itself, once midnight has passed. */
  lemma ExpiredOnExpiryDay(expires: string, parse: string -> Option<Date>, now: Instant)
    requires expires != "" && parse(expires) == Some(now.date)
    ensures IsExpired(Some(expires), parse, now) <==> now.sinceMidnight > 0
  {
  }

  /** Expiry holds exactly when the parsed date lies before today, or is today past midnight. */
  lemma ExpiredIffPast(expires: string, parse: string -> Option<Date>, now: Instant)
    requires expires != "" && parse(expires).Some?
    ensures IsExpired(Some(expires), parse, now) <==>
      (DateBefore(parse(expires).value, now.date) || (parse(expires).value == now.date && now.sinceMidnight > 0))
  {
  }

  /** An unparseable expiry never blocks. */
  lemma UnparseableNeverExpires(expires: string, parse: string -> Option<Date>, now: Instant)
    requires parse(expires).None?
    ensures !IsExpired(Some(expires), parse, now)
  {
  }

  // ---------------------------------------------------------------------
  // Authentication

  /** The key of a user on a computer in a company's user table. */
  function UserKey(autodeskUser: string, computerName: string): (key: string)
    ensures |key| == |autodeskUser| + 1 + |computerName|
    ensures key[..|autodeskUser|] == autodeskUser && key[|autodeskUser|] == '_'
    ensures key[|autodeskUser| + 1..] == computerName
  {
    autodeskUser + "_" + computerName
  }

  /** An active company whose user table holds `key`. */
  predicate Holds(company: Company, key: string)
  {
    company.active && key in company.users
  }

  /** Index `i` is the first company, in order, that holds `key`. */
  predicate IsFirstHolder(companies: Companies, key: string, i: int)
  {
    0 <= i < |companies| && Holds(companies[i].1, key) &&
    forall j | 0 <= j < i :: !Holds(companies[j].1, key)
  }

  /**
   * The decision of the company that holds the key, checks in order: API key,
   * then the user's active flag, then expiry.
   */
  function Verdict(companyId: string, company: Company, key: string, apiKey: string,
                   parse: string -> Option<Date>, now: Instant): (r: AuthResult)
    requires key in company.users
    ensures r.BadKey? <==> company.users[key].apiKey != Some(apiKey)
    ensures r.Disabled? <==> company.users[key].apiKey == Some(apiKey) && !company.users[key].active
    ensures r.Expired? <==>
      company.users[key].apiKey == Some(apiKey) && company.users[key].active &&
      IsExpired(company.users[key].expires, parse, now)
    ensures r.Ok? ==> r == Ok(company.users[key], company, companyId, key)
    ensures !r.NotFound?
  {
    var user := company.users[key];
    if user.apiKey != Some(apiKey) then BadKey
    else if !user.active then Disabled
    else if IsExpired(user.expires, parse, now) then Expired
    else Ok(user, company, companyId, key)
  }

  /**
   * Search the active companies in order for the composed key; the first one
   * holding it decides, and a key no active company holds is not found.
   */
  method AuthenticateUser(companies: Companies, autodeskUser: string, computerName: string, apiKey: string,
                          parse: string -> Option<Date>, now: Instant)
    returns (r: AuthResult)
    ensures r.NotFound? <==>
      forall i | 0 <= i < |companies| :: !Holds(companies[i].1, UserKey(autodeskUser, computerName))
    ensures forall i | IsFirstHolder(companies, UserKey(autodeskUser, computerName), i) ::
      r == Verdict(companies[i].0, companies[i].1, UserKey(autodeskUser, computerName), apiKey, parse, now)
    ensures r.Ok? ==>
      && r.userKey == UserKey(autodeskUser, computerName)
      && r.userKey in r.company.users && r.user == r.company.users[r.userKey]
      && r.company.active
      && (r.companyId, r.company) in companies
  {
    var key := UserKey(autodeskUser, computerName);
    var i := 0;
    while i < |companies|
      invariant 0 <= i <= |companies|
      invariant forall j | 0 <= j < i :: !Holds(companies[j].1, key)
    {
      var (companyId, company) := companies[i];
      if !company.active {
        i := i + 1;
        continue;
      }
      if key in company.users {
        assert IsFirstHolder(companies, key, i);
        var user := company.users[key];
        if user.apiKey != Some(apiKey) {
          return BadKey;
        }
        if !user.active {
          return Disabled;
        }
        if user.expires.Some? && user.expires.value != "" {
          var expireDate := parse(user.expires.value);
          if expireDate.Some? && Later(now, Instant(expireDate.value, 0)) {
            return Expired;
          }
        }
        return Ok(user, company, companyId, key);
      }
      i := i + 1;
    }
    return NotFound;
  }

  /** At most one index is the first holder, so the search's decision is well defined. */
  lemma FirstHolderUnique(companies: Companies, key: string, i: int, j: int)
    requires IsFirstHolder(companies, key, i) && IsFirstHolder(companies, key, j)
    ensures i == j
  {
  }

  // ---------------------------------------------------------------------
  // Plugin access on an authenticated user

  /** Access to one plugin: the wildcard or the plugin's name among the user's individual grants. */
  function CheckPluginAccess(user: User, plugin: string): (granted: bool)
    ensures granted ==> Wildcard in user.allowedPlugins || plugin in user.allowedPlugins
    ensures Wildcard !in user.allowedPlugins && plugin !in user.allowedPlugins ==> !granted
  {
    Wildcard in user.allowedPlugins || plugin in user.allowedPlugins
  }

  /** The plugins listed for a user: every plugin on disk for "*", else the grants sorted (duplicates kept). */
  function GetUserAllowedPlugins(user: User, dir: Option<seq<string>>): (r: seq<string>)
    ensures Wildcard in user.allowedPlugins ==> r == Available(dir)
    ensures Wildcard !in user.allowedPlugins ==>
      Sorted(r) && multiset(r) == multiset(user.allowedPlugins)
  {
    if Wildcard in user.allowedPlugins then Available(dir) else Sort(user.allowedPlugins)
  }

  /**
   * For a user without "*", the access check grants exactly the listed plugins;
   * with "*" it grants any name, on disk or not, while the listing is the catalog.
   */
  lemma AccessMatchesListing(user: User, dir: Option<seq<string>>, plugin: string)
    ensures Wildcard !in user.allowedPlugins ==>
      (CheckPluginAccess(user, plugin) <==> plugin in GetUserAllowedPlugins(user, dir))
    ensures Wildcard in user.allowedPlugins ==>
      CheckPluginAccess(user, plugin) && GetUserAllowedPlugins(user, dir) == Available(dir)
  {
    if Wildcard !in user.allowedPlugins {
      var listed := GetUserAllowedPlugins(user, dir);
      assert plugin in listed <==> plugin in multiset(listed);
      assert plugin in user.allowedPlugins <==> plugin in multiset(user.allowedPlugins);
    }
  }

  // ---------------------------------------------------------------------
  // Statistics

  /** The company stored under `companyId`: the first entry with that id (ids are unique in the configuration's dictionary). */
  function Lookup(companies: Companies, companyId: string): (r: Option<Company>)
    ensures r.None? <==> forall i | 0 <= i < |companies| :: companies[i].0 != companyId
    ensures r.Some? ==> exists i :: (0 <= i < |companies| && companies[i] == (companyId, r.value) &&
      forall j | 0 <= j < i :: companies[j].0 != companyId)
  {
    if companies == [] then None
    else if companies[0].0 == companyId then Some(companies[0].1)
    else
      var r := Lookup(companies[1..], companyId);
      assert forall i | 1 <= i < |companies| :: companies[i] == companies[1..][i - 1];
      r
  }

  /** Active and not expired. */
  predicate CountsAsActive(user: User, parse: string -> Option<Date>, now: Instant)
  {
    user.active && !IsExpired(user.expires, parse, now)
  }

  /** Active but expired. */
  predicate CountsAsExpired(user: User, parse: string -> Option<Date>, now: Instant)
  {
    user.active && IsExpired(user.expires, parse, now)
  }

  /** The keys among `keys` whose users count as active. */
  function ActiveAmong(users: map<string, User>, keys: set<string>, parse: string -> Option<Date>, now: Instant): set<string>
  {
    set k | k in keys && k in users && CountsAsActive(users[k], parse, now)
  }

  /** The keys among `keys` whose users count as expired. */
  function ExpiredAmong(users: map<string, User>, keys: set<string>, parse: string -> Option<Date>, now: Instant): set<string>
  {
    set k | k in keys && k in users && CountsAsExpired(users[k], parse, now)
  }

  lemma SubsetCard(a: set<string>, b: set<string>)
    requires a <= b
    ensures |a| <= |b|
  {
    assert b == a + (b - a);
    assert a * (b - a) == {};
  }

  /** Counting one more user adds it to at most one column. */
  lemma CountStep(users: map<string, User>, done: set<string>, key: string, parse: string -> Option<Date>, now: Instant)
    requires key in users && key !in done
    ensures |ActiveAmong(users, done + {key}, parse, now)| ==
      |ActiveAmong(users, done, parse, now)| + (if CountsAsActive(users[key], parse, now) then 1 else 0)
    ensures |ExpiredAmong(users, done + {key}, parse, now)| ==
      |ExpiredAmong(users, done, parse, now)| + (if CountsAsExpired(users[key], parse, now) then 1 else 0)
  {
    if CountsAsActive(users[key], parse, now) {
      assert ActiveAmong(users, done + {key}, parse, now) == ActiveAmong(users, done, parse, now) + {key};
    } else {
      assert ActiveAmong(users, done + {key}, parse, now) == ActiveAmong(users, done, parse, now);
    }
    if CountsAsExpired(users[key], parse, now) {
      assert ExpiredAmong(users, done + {key}, parse, now) == ExpiredAmong(users, done, parse, now) + {key};
    } else {
      assert ExpiredAmong(users, done + {key}, parse, now) == ExpiredAmong(users, done, parse, now);
    }
  }

  /** Inactive users are counted in neither column, so the two columns never exceed the table. */
  lemma CountsBounded(users: map<string, User>, parse: string -> Option<Date>, now: Instant)
    ensures |ActiveAmong(users, users.Keys, parse, now)| + |ExpiredAmong(users, users.Keys, parse, now)| <= |users|
    ensures forall k | k in users && !users[k].active ::
      k !in ActiveAmong(users, users.Keys, parse, now) && k !in ExpiredAmong(users, users.Keys, parse, now)
  {
    var a, e := ActiveAmong(users, users.Keys, parse, now), ExpiredAmong(users, users.Keys, parse, now);
    assert a * e == {};
    SubsetCard(a + e, users.Keys);
  }

  /** Count the company's users: active and unexpired, active and expired; inactive ones in neither. */
  method GetCompanyStats(companies: Companies, companyId: string, parse: string -> Option<Date>, now: Instant)
    returns (out: StatsOutcome)
    ensures Lookup(companies, companyId).None? <==> out.NoSuchCompany?
    ensures Lookup(companies, companyId).Some? ==>
      var c := Lookup(companies, companyId).value;
      if c.name.None? then out.NameMissing?
      else out == Stats(CompanyStats(
        c.name.value, |c.users|,
        |ActiveAmong(c.users, c.users.Keys, parse, now)|,
        |ExpiredAmong(c.users, c.users.Keys, parse, now)|,
        c.createdAt))
    ensures out.Stats? ==> out.stats.activeUsers + out.stats.expiredUsers <= out.stats.totalUsers
  {
    var found := Lookup(companies, companyId);
    if found.None? {
      return NoSuchCompany;
    }
    var company := found.value;
    var users := company.users;
    var activeUsers, expiredUsers := 0, 0;
    var remaining := users.Keys;
    while remaining != {}
      invariant remaining <= users.Keys
      invariant activeUsers == |ActiveAmong(users, users.Keys - remaining, parse, now)|
      invariant expiredUsers == |ExpiredAmong(users, users.Keys - remaining, parse, now)|
      decreases remaining
    {
      var key :| key in remaining;
      CountStep(users, users.Keys - remaining, key, parse, now);
      assert users.Keys - (remaining - {key}) == (users.Keys - remaining) + {key};
      var user := users[key];
      if user.active {
        if user.expires.Some? && user.expires.value != "" {
          var expireDate := parse(user.expires.value);
          if expireDate.Some? && Later(now, Instant(expireDate.value, 0)) {
            expiredUsers := expiredUsers + 1;
          } else {
            activeUsers := activeUsers + 1;
          }
        } else {
          activeUsers := activeUsers + 1;
        }
      }
      remaining := remaining - {key};
    }
    assert users.Keys - remaining == users.Keys;
    CountsBounded(users, parse, now);
    if company.name.None? {
      return NameMissing;
    }
    return Stats(CompanyStats(company.name.value, |users|, activeUsers, expiredUsers, company.createdAt));
  }

  /** The users of a table whose "active" is set. */
  function ActiveUserCount(users: map<string, User>): (n: nat)
    ensures n <= |users|
  {
    var active := set k | k in users && users[k].active;
    SubsetCard(active, users.Keys);
    |active|
  }

  /** The companies whose "active" is set. */
  function ActiveCompanyCount(companies: Companies): nat
  {
    if companies == [] then 0
    else ActiveCompanyCount(companies[..|companies| - 1]) + (if companies[|companies| - 1].1.active then 1 else 0)
  }

  /** Users of active companies, all of them. */
  function UsersOfActive(companies: Companies): nat
  {
    if companies == [] then 0
    else
      var c := companies[|companies| - 1].1;
      UsersOfActive(companies[..|companies| - 1]) + (if c.active then |c.users| else 0)
  }

  /** Users of active companies whose own "active" is set. */
  function ActiveUsersOfActive(companies: Companies): nat
  {
    if companies == [] then 0
    else
      var c := companies[|companies| - 1].1;
      ActiveUsersOfActive(companies[..|companies| - 1]) + (if c.active then ActiveUserCount(c.users) else 0)
  }

  lemma {:induction false} ActiveCompaniesBounded(companies: Companies)
    ensures ActiveCompanyCount(companies) <= |companies|
  {
    if companies != [] {
      ActiveCompaniesBounded(companies[..|companies| - 1]);
    }
  }

  lemma {:induction false} ActiveUsersBounded(companies: Companies)
    ensures ActiveUsersOfActive(companies) <= UsersOfActive(companies)
  {
    if companies != [] {
      ActiveUsersBounded(companies[..|companies| - 1]);
    }
  }

  /** Inactive companies contribute no users: only active companies' tables are summed. */
  lemma {:induction false} InactiveCompaniesIgnored(companies: Companies)
    requires forall i | 0 <= i < |companies| :: !companies[i].1.active
    ensures ActiveCompanyCount(companies) == 0
    ensures UsersOfActive(companies) == 0 && ActiveUsersOfActive(companies) == 0
  {
    if companies != [] {
      InactiveCompaniesIgnored(companies[..|companies| - 1]);
    }
  }

  /**
   * Only active companies' user tables are summed: replacing the users of an
   * inactive company leaves both user sums unchanged.
   */
  lemma {:induction false} InactiveUsersIgnored(companies: Companies, k: int, users: map<string, User>)
    requires 0 <= k < |companies| && !companies[k].1.active
    ensures var changed := companies[k := (companies[k].0, companies[k].1.(users := users))];
      && UsersOfActive(changed) == UsersOfActive(companies)
      && ActiveUsersOfActive(changed) == ActiveUsersOfActive(companies)
  {
    var changed := companies[k := (companies[k].0, companies[k].1.(users := users))];
    var n := |companies|;
    if k < n - 1 {
      InactiveUsersIgnored(companies[..n - 1], k, users);
      assert changed[..n - 1] == companies[..n - 1][k := (companies[k].0, companies[k].1.(users := users))];
    } else {
      assert changed[..n - 1] == companies[..n - 1];
    }
  }

  /** Company counts, user counts over active companies only, and the number of plugins on disk. */
  method GetGlobalStats(companies: Companies, dir: Option<seq<string>>) returns (g: GlobalStats)
    ensures g == GlobalStats(|companies|, ActiveCompanyCount(companies), UsersOfActive(companies),
                             ActiveUsersOfActive(companies), |Available(dir)|)
    ensures g.activeCompanies <= g.totalCompanies && g.activeUsers <= g.totalUsers
  {
    var totalCompanies := |companies|;
    var activeCompanies := ActiveCompanyCount(companies);
    var totalUsers, activeUsers := 0, 0;
    var i := 0;
    while i < |companies|
      invariant 0 <= i <= |companies|
      invariant totalUsers == UsersOfActive(companies[..i])
      invariant activeUsers == ActiveUsersOfActive(companies[..i])
    {
      assert companies[..i + 1][..i] == companies[..i];
      var company := companies[i].1;
      if company.active {
        totalUsers := totalUsers + |company.users|;
        activeUsers := activeUsers + ActiveUserCount(company.users);
      }
      i := i + 1;
    }
    assert companies[..|companies|] == companies;
    var plugins := ScanPluginDir(dir);
    ActiveCompaniesBounded(companies);
    ActiveUsersBounded(companies);
    g := GlobalStats(totalCompanies, activeCompanies, totalUsers, activeUsers, |plugins|);
  }
}
