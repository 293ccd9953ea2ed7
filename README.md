# Access control of the Revit plugin server

This project models, in Dafny, the access-control core of a plugin-distribution
server: who may download which plugin. It has two independent parts.

- **Pack manager** (`Packs`, over `Catalog` and `StringOrder`). A pack is a
  named list of plugin names that may include other packs. The model covers a
  pack's declared plugins, a pack's summary with its included packs expanded
  one level, the listing of all packs, and a user's effective permissions from
  individual plugin grants and pack grants. The wildcard `"*"` stands for every
  plugin on disk. The plugin directory listing is an input (`None` when the
  directory is absent). A plugin is a `.py` file, named without its suffix.
- **Plugin server** (`Server`). Users belong to companies. Authentication
  composes the key `user + "_" + computer` and searches the active companies in
  their configured order. The first company holding the key decides, checking
  API key, then the user's active flag, then expiry. The module also models the
  plugin access check, the sorted list of a user's plugins, and per-company and
  global user statistics. The clock (`now`) and the parsing of an `expires`
  text (`parse`) are parameters.

Python strings are `string`. Python's `sorted` is `StringOrder.Sort` and
`sorted(set(...))` is `StringOrder.SortedSet`, both over Python's code-point
string order (`StringOrder.Below`). Python raises errors where the model returns
values: `Server.AuthResult` has one constructor per error that
`authenticate_user` raises, `Server.StatsOutcome` covers the unknown company
(`None`) and the company without a `name` (a `KeyError`), and the denial that
`check_plugin_access` raises (app.py:95) is the result `false` of
`Server.CheckPluginAccess`.

Behaviour worth noting:

- A wildcard pack grant returns the catalog alone; individual grants are not
  added back (pack_manager.py:148-149).
- A pack summary whose gathered plugins include the wildcard lists the catalog
  in directory order, neither sorted nor deduplicated (pack_manager.py:120-121).
- Included packs add their direct plugins only, one level deep
  (pack_manager.py:114-117).
- Companies are searched in configuration order, the dictionary's insertion
  order (app.py:53).
- Expiry compares now with midnight of the `expires` date (app.py:72-73), so a
  user is already expired during that day, once midnight has passed.

## Model

| member | source | states |
|---|---|---|
| `Catalog.PluginName` | pack_manager.py:97-98 | the plugin name followed by ".py" gives back the file name |
| `Catalog.PluginNamesMembers` | app.py:106-118 | a name is listed iff some ".py" file of the listing, stripped of its suffix, is that name; never more names than files |
| `Catalog.AvailableAreFiles` | app.py:109-114 | every available plugin name plus ".py" is a file in an existing directory |
| `Catalog.ScanPluginDir` | pack_manager.py:90-101 | the scan returns exactly the stripped ".py" names in listing order, and `[]` for an absent directory |
| `StringOrder.BelowAntisymmetric` | pack_manager.py:124 | two strings each at most the other are equal (Python string order) |
| `StringOrder.BelowTransitive` | pack_manager.py:124 | Python string order is transitive |
| `StringOrder.BelowTotal` | pack_manager.py:124 | any two strings are comparable |
| `StringOrder.Sort` | app.py:104 | `sorted(list)`: non-decreasing and a permutation of the input (duplicates kept) |
| `StringOrder.SortedSet` | pack_manager.py:124 | `sorted(set(list))`: strictly increasing, with exactly the input's names |
| `StringOrder.StrictlySortedUnique` | pack_manager.py:124 | two strictly increasing lists with the same names are equal, so the sorted-set result is unique |
| `Packs.PluginsFromPack` | pack_manager.py:74-88 | an unknown pack gives `[]`; every returned name is declared by the pack or on disk |
| `Packs.PluginsFromPackVerbatim` | pack_manager.py:82-88 | without "*" the declared list comes back unchanged: no includes, no dedup, no reorder |
| `Packs.PluginsFromPackWildcard` | pack_manager.py:84-86 | with "*" in the list the result is exactly the catalog |
| `Packs.PluginsFromPackIgnoresIncludes` | pack_manager.py:81-88 | the result depends only on the named pack's plugin list, not on its includes or on other packs |
| `Packs.IncludedPluginsMembers` | pack_manager.py:113-117 | a name is gathered from the includes iff a known included pack lists it directly; unknown includes add nothing |
| `Packs.IncludedPluginsShallow` | pack_manager.py:114-117 | the gathered names do not depend on what the included packs include themselves |
| `Packs.Summary` | pack_manager.py:126-133 | the summary carries the resolved list and `plugin_count` equal to its length |
| `Packs.PackInfoUnknown` | pack_manager.py:105-108 | the summary is absent (`{}`) exactly for an unknown pack |
| `Packs.PackInfoFields` | pack_manager.py:126-133 | `plugin_count == len(plugins)`; name, description, price and category are copied when present and default to the pack name, "", 0.0 and "general" when absent |
| `Packs.PackInfoWildcard` | pack_manager.py:119-121 | "*" in the pack or in a known included pack's direct list yields the catalog list as listed |
| `Packs.PackInfoMembers` | pack_manager.py:110-124 | otherwise the plugins are strictly sorted, and a name is in them iff the pack or a known included pack lists it directly |
| `Packs.PackInfoShallow` | pack_manager.py:113-117 | changing what included packs include leaves a pack's summary unchanged (one level only) |
| `Packs.GetPackInfo` | pack_manager.py:103-133 | the copy, extend and resolve loop computes exactly the pack summary `PackInfoOf` |
| `Packs.ListAllPacks` | pack_manager.py:181-189 | the result has exactly the configured pack names as keys, each mapped to its summary |
| `Packs.DefaultPacksScenario` | pack_manager.py:35-62 | with the default packs, a "basic" holder may fetch only hello_world and a "premium" holder every plugin on disk |
| `Packs.PackGrantsMembers` | pack_manager.py:151-153 | a name comes from the pack grants iff some granted pack yields it |
| `Packs.ListOf` | pack_manager.py:155 | `list(set)`: each member exactly once, no others |
| `Packs.ResolveUserPermissions` | pack_manager.py:135-155 | "*" in either grant list gives exactly the catalog; otherwise no duplicates, and a name is listed iff individually granted or yielded by a granted pack |
| `Packs.IsPluginAllowed` | pack_manager.py:157-160 | allowed iff on disk (wildcard user) or individually granted or yielded by a granted pack |
| `Packs.ResolutionDecidesAccess` | pack_manager.py:157-160 | for any resolution result, a plugin is allowed iff it is in that result |
| `Packs.GetUserDetailedPermissions` | pack_manager.py:162-179 | "*" among the packs gives exactly `{"*": catalog}`; otherwise one entry per granted pack with its plugins; the individual list verbatim and a resolution |
| `Server.UserKey` | app.py:50 | the key is the user, then "_", then the computer name |
| `Server.ExpiredOnExpiryDay` | app.py:69-74 | on the expiry date itself the user is expired iff midnight has passed |
| `Server.ExpiredIffPast` | app.py:72-74 | a parsed expiry blocks iff its date is before today, or is today and midnight has passed |
| `Server.UnparseableNeverExpires` | app.py:75-76 | an unparseable expiry never blocks |
| `Server.Verdict` | app.py:59-84 | checks in order: wrong API key is BadKey, else inactive is Disabled, else expired is Expired, else Ok with the user, company, id and key |
| `Server.AuthenticateUser` | app.py:48-86 | NotFound iff no active company holds the composed key; otherwise the first active holder's verdict; Ok carries the composed key and the matching user of an active company |
| `Server.FirstHolderUnique` | app.py:53-58 | at most one company is the first active holder of a key |
| `Server.CheckPluginAccess` | app.py:88-95 | access only with "*" or the plugin among the individual grants (absent means none) |
| `Server.GetUserAllowedPlugins` | app.py:97-104 | the catalog names for "*", otherwise the grants sorted, duplicates kept |
| `Server.AccessMatchesListing` | app.py:88-104 | without "*", access is granted iff the plugin is in the user's listed plugins; with "*", always |
| `Server.Lookup` | app.py:122-125 | absent iff no entry has the id; otherwise the first entry with that id |
| `Server.CountStep` | app.py:132-147 | one more user adds one to the active column iff active and unexpired, to the expired column iff active and expired |
| `Server.CountsBounded` | app.py:128-151 | inactive users are in neither column, and active plus expired is at most the number of users |
| `Server.GetCompanyStats` | app.py:120-155 | unknown company gives no stats; a missing name fails; otherwise total, active and expired counts as defined, with `active + expired <= total` |
| `Server.ActiveUserCount` | app.py:170 | the active users of a table are at most its size |
| `Server.ActiveCompaniesBounded` | app.py:159-160 | active companies are at most all companies |
| `Server.ActiveUsersBounded` | app.py:162-170 | active users of active companies are at most all users of active companies |
| `Server.InactiveCompaniesIgnored` | app.py:165-167 | with no active company, every company and user count is 0 |
| `Server.InactiveUsersIgnored` | app.py:165-170 | replacing the users of an inactive company changes neither the total nor the active user sum |
| `Server.GetGlobalStats` | app.py:157-178 | the counters equal the company and user counts over active companies and the plugins on disk, and keep `active <= total` |

## Left out

- HTTP routes, header extraction, status codes and error handlers (`app.py:185-373`): transport only.
- Reading and writing the configuration files (`_load_config`, `load_packs_config`, `save_packs_config`): the loaded records are inputs. The default pack configuration is modelled as `Packs.DefaultPacks`.
- File sizes and modification times in `list_disk_plugins`: only plugin names are modelled.
- The clock and `strptime`: `now` and the date parser are parameters. The leniency of `%Y-%m-%d` parsing is not modelled.
- Logging. Prices are carried as `real` and never computed with.
- JSON values of unexpected types, such as a non-boolean `active` or a non-list `plugins`. The model's records are typed.
- The pack configuration's `individual_plugins` section: no modelled operation reads it.
- app.py and pack_manager.py contain no flat email-keyed accounts, device registration or bundle-access check, so none is modelled.
- Constructors of `PackManager` and `PluginServer`. `PluginServer` never calls `PackManager`, so the two parts are modelled independently.
- Packs.ResolveUserPermissions: the order of the result is not stated. Python lists a set in an unspecified order.
- Server.Lookup: returns the first entry with the id. Dictionary ids are unique, so this matches the dictionary lookup.
- Moments (`Server.Instant`): microseconds since midnight are not bounded to one day. Only the comparison with midnight is used.
- Server.GetCompanyStats: judges every user against one moment `now`; app.py:140 reads the clock once per user, so a count taken across midnight can differ.
- Packs.ListAllPacks: returns a map, so the dictionary insertion order that pack_manager.py:184-187 passes on to its output is not kept.
- Packs.GetUserDetailedPermissions: returns `pack_plugins` as a map, so the insertion order of pack_manager.py:168-173 is not kept.
