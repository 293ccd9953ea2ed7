/**
 * The pack manager: named plugin packs, their resolution against the plugin
 * catalog, and a user's effective plugin permissions from individual grants
 * and pack grants. The "packs" section of the pack configuration is a map
 * from pack name to `Pack`; the plugin directory listing is `dir` (see
 * `Catalog`). The wildcard "*" means "every plugin available on disk"
 * wherever it appears in a plugin or pack list.
 */
module Packs {
  import opened Options
  import opened Catalog
  import opened StringOrder

  /** One pack record; an absent list is empty, an absent scalar is `None`. */
  datatype Pack = Pack(
    name: Option<string>,
    description: Option<string>,
    plugins: seq<string>,
    includesPacks: seq<string>,
    price: Option<real>,
    category: Option<string>)

  /** The summary the pack manager reports for one pack. */
  datatype PackInfo = PackInfo(
    name: string,
    description: string,
    plugins: seq<string>,
    pluginCount: nat,
    price: real,
    category: string)

  /** The grant fields of a user record; absent lists are empty. */
  datatype UserGrants = UserGrants(allowedPlugins: seq<string>, allowedPacks: seq<string>)

  /** The detailed permission report of one user. */
  datatype DetailedPermissions = DetailedPermissions(
    individualPlugins: seq<string>,
    packPlugins: map<string, seq<string>>,
    allAllowedPlugins: seq<string>)

  type PackTable = map<string, Pack>

  // ---------------------------------------------------------------------
  // One pack's declared plugins

  /**
   * The plugins a pack grants: its declared list as written, or the whole
   * catalog when that list holds the wildcard; nothing for an unknown pack.
   * The pack's `includesPacks` play no part.
   */
  function PluginsFromPack(packs: PackTable, dir: Option<seq<string>>, packName: string): (r: seq<string>)
    ensures packName !in packs ==> r == []
    ensures forall x | x in r :: x in Available(dir) || (packName in packs && x in packs[packName].plugins)
  {
    if packName !in packs then []
    else
      var plugins := packs[packName].plugins;
      if Wildcard in plugins then Available(dir) else plugins
  }

  /** Without a wildcard the declared list comes back unchanged: no include expansion, dedup or reorder. */
  lemma PluginsFromPackVerbatim(packs: PackTable, dir: Option<seq<string>>, packName: string)
    requires packName in packs && Wildcard !in packs[packName].plugins
    ensures PluginsFromPack(packs, dir, packName) == packs[packName].plugins
  {
  }

  /** With a wildcard the catalog comes back exactly, whatever else the list declares. */
  lemma PluginsFromPackWildcard(packs: PackTable, dir: Option<seq<string>>, packName: string)
    requires packName in packs && Wildcard in packs[packName].plugins
    ensures PluginsFromPack(packs, dir, packName) == Available(dir)
  {
  }

  /** The result depends on the named pack's plugin list alone: not on its includes, nor on any other pack. */
  lemma PluginsFromPackIgnoresIncludes(packs: PackTable, packs': PackTable, dir: Option<seq<string>>, packName: string)
    requires packName in packs <==> packName in packs'
    requires packName in packs ==> packs'[packName].plugins == packs[packName].plugins
    ensures PluginsFromPack(packs', dir, packName) == PluginsFromPack(packs, dir, packName)
  {
  }

  // ---------------------------------------------------------------------
  // Pack summaries

  /** The direct plugin lists of the known packs among `includes`, concatenated in order. */
  function IncludedPlugins(packs: PackTable, includes: seq<string>): seq<string>
  {
    if includes == [] then []
    else
      var last := includes[|includes| - 1];
      IncludedPlugins(packs, includes[..|includes| - 1]) + (if last in packs then packs[last].plugins else [])
  }

  /** A name is gathered from the includes exactly when a known included pack lists it directly. */
  lemma {:induction false} IncludedPluginsMembers(packs: PackTable, includes: seq<string>, x: string)
    ensures x in IncludedPlugins(packs, includes) <==>
      exists inc :: inc in includes && inc in packs && x in packs[inc].plugins
  {
    if includes != [] {
      var init, last := includes[..|includes| - 1], includes[|includes| - 1];
      IncludedPluginsMembers(packs, init, x);
      assert includes == init + [last];
    }
  }

  /** Only the included packs' plugin lists matter; their own includes are never followed. */
  lemma {:induction false} IncludedPluginsShallow(packs: PackTable, packs': PackTable, includes: seq<string>)
    requires packs'.Keys == packs.Keys
    requires forall p | p in packs :: packs'[p].plugins == packs[p].plugins
    ensures IncludedPlugins(packs', includes) == IncludedPlugins(packs, includes)
  {
    if includes != [] {
      IncludedPluginsShallow(packs, packs', includes[..|includes| - 1]);
    }
  }

  /** The summary of a known pack with its defaults filled in. */
  function Summary(packName: string, pack: Pack, plugins: seq<string>): (info: PackInfo)
    ensures info.plugins == plugins && info.pluginCount == |plugins|
  {
    PackInfo(
      pack.name.GetOr(packName),
      pack.description.GetOr(""),
      plugins,
      |plugins|,
      pack.price.GetOr(0.0),
      pack.category.GetOr("general"))
  }

  /**
   * The summary of a pack: its own plugins followed by the direct plugins of
   * each known included pack; the catalog if a wildcard is among them, and
   * otherwise each name once in increasing order. `None` for an unknown pack.
   */
  function PackInfoOf(packs: PackTable, dir: Option<seq<string>>, packName: string): Option<PackInfo>
  {
    if packName !in packs then None
    else
      var pack := packs[packName];
      var gathered := pack.plugins + IncludedPlugins(packs, pack.includesPacks);
      Some(Summary(packName, pack, if Wildcard in gathered then Available(dir) else SortedSet(gathered)))
  }

  /** A wildcard in the pack or in a known included pack's direct list. */
  ghost predicate GrantsEverything(packs: PackTable, packName: string)
    requires packName in packs
  {
    Wildcard in packs[packName].plugins ||
    exists inc :: inc in packs[packName].includesPacks && inc in packs && Wildcard in packs[inc].plugins
  }

  lemma PackInfoUnknown(packs: PackTable, dir: Option<seq<string>>, packName: string)
    ensures PackInfoOf(packs, dir, packName).None? <==> packName !in packs
  {
  }

  /** The count always matches the list; present fields are copied, absent ones take their defaults. */
  lemma PackInfoFields(packs: PackTable, dir: Option<seq<string>>, packName: string)
    requires packName in packs
    ensures var info := PackInfoOf(packs, dir, packName);
      && info.Some?
      && info.value.pluginCount == |info.value.plugins|
      && info.value.name == packs[packName].name.GetOr(packName)
      && info.value.description == packs[packName].description.GetOr("")
      && info.value.price == packs[packName].price.GetOr(0.0)
      && info.value.category == packs[packName].category.GetOr("general")
  {
  }

  /** A wildcard in the pack or in a known included pack yields the catalog listing as it is. */
  lemma PackInfoWildcard(packs: PackTable, dir: Option<seq<string>>, packName: string)
    requires packName in packs && GrantsEverything(packs, packName)
    ensures PackInfoOf(packs, dir, packName).Some?
    ensures PackInfoOf(packs, dir, packName).value.plugins == Available(dir)
  {
    var pack := packs[packName];
    if Wildcard !in pack.plugins {
      var inc :| inc in pack.includesPacks && inc in packs && Wildcard in packs[inc].plugins;
      IncludedPluginsMembers(packs, pack.includesPacks, Wildcard);
    }
  }

  /**
   * Without a wildcard: each name once, increasing, and exactly the names the
   * pack lists or a known included pack lists directly.
   */
  lemma PackInfoMembers(packs: PackTable, dir: Option<seq<string>>, packName: string)
    requires packName in packs && !GrantsEverything(packs, packName)
    ensures PackInfoOf(packs, dir, packName).Some?
    ensures StrictlySorted(PackInfoOf(packs, dir, packName).value.plugins)
    ensures forall x :: x in PackInfoOf(packs, dir, packName).value.plugins <==>
      (x in packs[packName].plugins ||
       exists inc :: inc in packs[packName].includesPacks && inc in packs && x in packs[inc].plugins)
  {
    var pack := packs[packName];
    var gathered := pack.plugins + IncludedPlugins(packs, pack.includesPacks);
    IncludedPluginsMembers(packs, pack.includesPacks, Wildcard);
    assert Wildcard !in gathered;
    var plugins := PackInfoOf(packs, dir, packName).value.plugins;
    assert plugins == SortedSet(gathered);
    forall x
      ensures x in plugins <==>
        (x in pack.plugins || exists inc :: inc in pack.includesPacks && inc in packs && x in packs[inc].plugins)
    {
      IncludedPluginsMembers(packs, pack.includesPacks, x);
      assert x in plugins <==> x in Elements(plugins);
      assert x in gathered <==> x in Elements(gathered);
    }
  }

  /** Changing what included packs include does not change a pack's summary (one level only). */
  lemma PackInfoShallow(packs: PackTable, packs': PackTable, dir: Option<seq<string>>, packName: string)
    requires packs'.Keys == packs.Keys
    requires forall p | p in packs :: packs'[p].plugins == packs[p].plugins
    requires packName in packs ==> packs'[packName] == packs[packName]
    ensures PackInfoOf(packs', dir, packName) == PackInfoOf(packs, dir, packName)
  {
    if packName in packs {
      IncludedPluginsShallow(packs, packs', packs[packName].includesPacks);
    }
  }

  /** Copy the pack's list, extend it with each known include's direct list, then resolve. */
  method GetPackInfo(packs: PackTable, dir: Option<seq<string>>, packName: string) returns (info: Option<PackInfo>)
    ensures info == PackInfoOf(packs, dir, packName)
  {
    if packName !in packs {
      return None;
    }
    var pack := packs[packName];
    var plugins := pack.plugins;
    var includes := pack.includesPacks;
    var i := 0;
    while i < |includes|
      invariant 0 <= i <= |includes|
      invariant plugins == pack.plugins + IncludedPlugins(packs, includes[..i])
    {
      if includes[i] in packs {
        plugins := plugins + packs[includes[i]].plugins;
      }
      assert includes[..i + 1][..i] == includes[..i];
      i := i + 1;
    }
    assert includes[..|includes|] == includes;
    if Wildcard in plugins {
      plugins := ScanPluginDir(dir);
    } else {
      plugins := SortedSet(plugins);
    }
    info := Some(Summary(packName, pack, plugins));
  }

  /** Every configured pack mapped to its summary. */
  method ListAllPacks(packs: PackTable, dir: Option<seq<string>>) returns (result: map<string, PackInfo>)
    ensures result.Keys == packs.Keys
    ensures forall p | p in result :: PackInfoOf(packs, dir, p) == Some(result[p])
  {
    result := map[];
    var remaining := packs.Keys;
    while remaining != {}
      invariant remaining <= packs.Keys
      invariant result.Keys == packs.Keys - remaining
      invariant forall p | p in result :: PackInfoOf(packs, dir, p) == Some(result[p])
      decreases remaining
    {
      var packName :| packName in remaining;
      var info := GetPackInfo(packs, dir, packName);
      result := result[packName := info.value];
      remaining := remaining - {packName};
    }
  }

  /** The packs written when no pack configuration exists: "basic" and the all-plugins "premium". */
  function DefaultPacks(): PackTable
  {
    map[
      "basic" := Pack(Some("Pack Basique"), Some("Outils essentiels pour débuter avec Revit"),
                      ["hello_world"], [], Some(29.99), Some("starter")),
      "premium" := Pack(Some("Pack Premium"), Some("Accès à tous les plugins disponibles"),
                        ["*"], [], Some(199.99), Some("professional"))]
  }

  // ---------------------------------------------------------------------
  // A user's effective permissions

  /** The union of what each named pack grants. */
  function PackGrants(packs: PackTable, dir: Option<seq<string>>, packNames: seq<string>): set<string>
  {
    if packNames == [] then {}
    else
      PackGrants(packs, dir, packNames[..|packNames| - 1]) +
      Elements(PluginsFromPack(packs, dir, packNames[|packNames| - 1]))
  }

  lemma {:induction false} PackGrantsMembers(packs: PackTable, dir: Option<seq<string>>, packNames: seq<string>, x: string)
    ensures x in PackGrants(packs, dir, packNames) <==>
      exists p :: p in packNames && x in PluginsFromPack(packs, dir, p)
  {
    if packNames != [] {
      var init, last := packNames[..|packNames| - 1], packNames[|packNames| - 1];
      PackGrantsMembers(packs, dir, init, x);
      assert packNames == init + [last];
      assert x in Elements(PluginsFromPack(packs, dir, last)) <==> x in PluginsFromPack(packs, dir, last);
    }
  }

  /** Either grant list holds the wildcard. */
  predicate GrantsAll(user: UserGrants)
  {
    Wildcard in user.allowedPlugins || Wildcard in user.allowedPacks
  }

  /** The set of plugin names a user may fetch. */
  function Granted(packs: PackTable, dir: Option<seq<string>>, user: UserGrants): set<string>
  {
    if GrantsAll(user) then Elements(Available(dir))
    else Elements(user.allowedPlugins) + PackGrants(packs, dir, user.allowedPacks)
  }

  /**
   * What a permission resolution returns: the catalog listing itself when
   * either grant list holds the wildcard (individual grants are then not
   * added back), and otherwise each individually granted name and each name
   * a granted pack yields, once, in no particular order.
   */
  ghost predicate IsResolution(packs: PackTable, dir: Option<seq<string>>, user: UserGrants, r: seq<string>)
  {
    if GrantsAll(user) then r == Available(dir)
    else
      && NoDuplicates(r)
      && forall x :: x in r <==>
           (x in user.allowedPlugins || exists p :: p in user.allowedPacks && x in PluginsFromPack(packs, dir, p))
  }

  /** List a set's members, each once, in an unspecified order. */
  method ListOf(s: set<string>) returns (r: seq<string>)
    ensures NoDuplicates(r)
    ensures Elements(r) == s
  {
    r := [];
    var rest := s;
    while rest != {}
      invariant rest <= s
      invariant NoDuplicates(r)
      invariant Elements(r) == s - rest
      decreases rest
    {
      var x :| x in rest;
      ElementsCons(x, []);
      assert Elements(r + [x]) == Elements(r) + {x} by {
        assert forall y | y in r + [x] :: y in r || y == x;
      }
      r := r + [x];
      rest := rest - {x};
    }
  }

  /** Individual grants, short-circuiting on "*", then pack grants, short-circuiting on "*". */
  method ResolveUserPermissions(packs: PackTable, dir: Option<seq<string>>, user: UserGrants) returns (r: seq<string>)
    ensures IsResolution(packs, dir, user, r)
  {
    if Wildcard in user.allowedPlugins {
      r := ScanPluginDir(dir);
      return;
    }
    var allowed := Elements(user.allowedPlugins);
    if Wildcard in user.allowedPacks {
      r := ScanPluginDir(dir);
      return;
    }
    var packNames := user.allowedPacks;
    var i := 0;
    while i < |packNames|
      invariant 0 <= i <= |packNames|
      invariant allowed == Elements(user.allowedPlugins) + PackGrants(packs, dir, packNames[..i])
    {
      allowed := allowed + Elements(PluginsFromPack(packs, dir, packNames[i]));
      assert packNames[..i + 1][..i] == packNames[..i];
      i := i + 1;
    }
    assert packNames[..|packNames|] == packNames;
    r := ListOf(allowed);
    forall x
      ensures x in r <==>
        (x in user.allowedPlugins || exists p :: p in packNames && x in PluginsFromPack(packs, dir, p))
    {
      PackGrantsMembers(packs, dir, packNames, x);
      assert x in r <==> x in Elements(r);
      assert x in user.allowedPlugins <==> x in Elements(user.allowedPlugins);
    }
  }

  /** Whether a user may fetch a plugin: membership in the user's granted set. */
  function IsPluginAllowed(packs: PackTable, dir: Option<seq<string>>, user: UserGrants, plugin: string): (allowed: bool)
    ensures GrantsAll(user) ==> (allowed <==> plugin in Available(dir))
    ensures !GrantsAll(user) ==> (allowed <==>
      (plugin in user.allowedPlugins || exists p :: p in user.allowedPacks && plugin in PluginsFromPack(packs, dir, p)))
  {
    PackGrantsMembers(packs, dir, user.allowedPacks, plugin);
    assert plugin in user.allowedPlugins <==> plugin in Elements(user.allowedPlugins);
    assert plugin in Available(dir) <==> plugin in Elements(Available(dir));
    plugin in Granted(packs, dir, user)
  }

  /** The access test agrees with every resolution: a plugin is allowed exactly when it is listed. */
  lemma ResolutionDecidesAccess(packs: PackTable, dir: Option<seq<string>>, user: UserGrants, r: seq<string>, plugin: string)
    requires IsResolution(packs, dir, user, r)
    ensures IsPluginAllowed(packs, dir, user, plugin) <==> plugin in r
  {
  }

  /** The individual grants, each granted pack's plugins (or only "*" with the catalog), and the resolution. */
  method GetUserDetailedPermissions(packs: PackTable, dir: Option<seq<string>>, user: UserGrants)
    returns (d: DetailedPermissions)
    ensures d.individualPlugins == user.allowedPlugins
    ensures Wildcard in user.allowedPacks ==> d.packPlugins == map[Wildcard := Available(dir)]
    ensures Wildcard !in user.allowedPacks ==>
      && d.packPlugins.Keys == Elements(user.allowedPacks)
      && forall p | p in d.packPlugins :: d.packPlugins[p] == PluginsFromPack(packs, dir, p)
    ensures IsResolution(packs, dir, user, d.allAllowedPlugins)
  {
    var packNames := user.allowedPacks;
    var packPlugins: map<string, seq<string>> := map[];
    var i := 0;
    while i < |packNames|
      invariant 0 <= i <= |packNames|
      invariant Wildcard !in packNames[..i]
      invariant packPlugins.Keys == Elements(packNames[..i])
      invariant forall p | p in packPlugins :: packPlugins[p] == PluginsFromPack(packs, dir, p)
    {
      var packName := packNames[i];
      if packName == Wildcard {
        var all := ScanPluginDir(dir);
        packPlugins := map[Wildcard := all];
        break;
      }
      packPlugins := packPlugins[packName := PluginsFromPack(packs, dir, packName)];
      assert packNames[..i + 1] == packNames[..i] + [packName];
      i := i + 1;
    }
    assert i == |packNames| ==> packNames[..i] == packNames;
    var all := ResolveUserPermissions(packs, dir, user);
    d := DetailedPermissions(user.allowedPlugins, packPlugins, all);
  }

  /**
   * With the default packs and a directory holding hello_world.py and
   * wall_tool.py: a "basic" holder may fetch hello_world only, a "premium"
   * holder both plugins.
   */
  lemma DefaultPacksScenario()
    ensures var dir := Some(["hello_world.py", "wall_tool.py", "README.md"]);
      && PackInfoOf(DefaultPacks(), dir, "premium").value.plugins == ["hello_world", "wall_tool"]
      && (forall x :: IsPluginAllowed(DefaultPacks(), dir, UserGrants([], ["basic"]), x) <==> x == "hello_world")
      && (forall x :: IsPluginAllowed(DefaultPacks(), dir, UserGrants([], ["premium"]), x) <==>
                       x == "hello_world" || x == "wall_tool")
  {
    var dir := Some(["hello_world.py", "wall_tool.py", "README.md"]);
    var files := dir.value;
    assert IsPluginFile(files[0]) && IsPluginFile(files[1]) && !IsPluginFile(files[2]);
    assert files[..2][..1] == files[..1] && files[..2] == files[..3][..2];
    assert files[..1] == ["hello_world.py"] && files[..1][..0] == [];
    assert PluginName("hello_world.py") == "hello_world" by {
      assert "hello_world" + ".py" == "hello_world.py";
      assert "hello_world.py"[..11] == "hello_world";
    }
    assert PluginName("wall_tool.py") == "wall_tool" by {
      assert "wall_tool.py"[..9] == "wall_tool";
    }
    assert PluginNames(files[..1]) == ["hello_world"];
    assert PluginNames(files[..2]) == ["hello_world", "wall_tool"];
    assert Available(dir) == ["hello_world", "wall_tool"];
  }
}
