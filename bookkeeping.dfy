/*
 * UsedAssets (LoadingScreenMod/UsedAssets.cs): the record of which custom
 * assets a saved city uses, the queries the asset loader asks of it, the
 * lookup of an asset by its full name, and the custom deserializer it
 * installs while a city loads.
 *
 * A custom asset is named `package.asset`. The name is split at its first
 * dot, which may be wrong for names with more dots; the package queries
 * therefore accept any dotted name.
 */
module Bookkeeping {
  import opened Stream
  import opened Session
  import opened Decoding

  // ---------------------------------------------------------------------
  // Names
  // ---------------------------------------------------------------------

  /** string.IndexOf('.'): the index of the first dot, or -1. */
  function IndexOfDot(name: string): (j: int)
    ensures -1 <= j < |name|
    ensures j == -1 <==> '.' !in name
    ensures j >= 0 ==> name[j] == '.' && '.' !in name[..j]
  {
    if |name| == 0 then -1
    else if name[0] == '.' then 0
    else
      var k := IndexOfDot(name[1..]);
      assert name[1..][..if k < 0 then 0 else k] == name[1..if k < 0 then 1 else k + 1];
      if k < 0 then -1 else k + 1
  }

  /** Line 145: a name is recorded when it is not empty and has a dot
      that is not its last character. */
  predicate IsCustomName(name: string) {
    var j := IndexOfDot(name);
    |name| > 0 && 0 <= j < |name| - 1
  }

  /** Line 147: the part before the first dot. */
  function PackageName(name: string): (package: string)
    requires IsCustomName(name)
    ensures |package| < |name| - 1 && name[|package|] == '.'
    ensures '.' !in package && package + name[|package|..] == name
  {
    name[..IndexOfDot(name)]
  }

  /** The custom names among `names`: what recording them one by one adds
      to a category's assets. */
  function CustomNames(names: seq<string>): set<string>
    decreases |names|
  {
    if |names| == 0 then {}
    else
      var last := names[|names| - 1];
      CustomNames(names[..|names| - 1]) + (if IsCustomName(last) then {last} else {})
  }

  /** The packages of the custom names among `names`: what recording them
      one by one adds to a category's packages. */
  function PackagesOf(names: seq<string>): set<string>
    decreases |names|
  {
    if |names| == 0 then {}
    else
      var last := names[|names| - 1];
      PackagesOf(names[..|names| - 1]) + (if IsCustomName(last) then {PackageName(last)} else {})
  }

  /** Recording one more name. */
  lemma RecordOneMore(names: seq<string>, name: string)
    ensures CustomNames(names + [name]) == CustomNames(names) + (if IsCustomName(name) then {name} else {})
    ensures PackagesOf(names + [name]) == PackagesOf(names) + (if IsCustomName(name) then {PackageName(name)} else {})
  {
    assert (names + [name])[..|names|] == names;
  }

  /** The recorded assets are exactly the custom names among the names. */
  lemma {:induction false} CustomNamesAre(names: seq<string>, x: string)
    ensures x in CustomNames(names) <==> x in names && IsCustomName(x)
    decreases |names|
  {
    if |names| > 0 {
      var front := names[..|names| - 1];
      CustomNamesAre(front, x);
      assert names == front + [names[|names| - 1]];
    }
  }

  /** The recorded packages are exactly the packages of those names. */
  lemma {:induction false} PackagesOfAre(names: seq<string>, x: string)
    ensures x in PackagesOf(names) <==> exists n :: n in names && IsCustomName(n) && PackageName(n) == x
    decreases |names|
  {
    if |names| > 0 {
      var front := names[..|names| - 1];
      var last := names[|names| - 1];
      PackagesOfAre(front, x);
      assert names == front + [last];
      assert names[..|names| - 1] == front;
      assert PackagesOf(names) == PackagesOf(front) + (if IsCustomName(last) then {PackageName(last)} else {});
      if x in PackagesOf(front) {
        var n :| n in front && IsCustomName(n) && PackageName(n) == x;
        assert n in names;
      } else if IsCustomName(last) && x == PackageName(last) {
        assert last in names;
      } else {
        forall n | n in names && IsCustomName(n)
          ensures PackageName(n) != x
        {
          if n != last {
            assert n in front;
          }
        }
      }
    }
  }

  /** What UsedAssets records for one category of prefabs: the package
      names and the full asset names (buildingPackages and buildingAssets,
      and so on). */
  datatype Usage = Usage(packages: set<string>, assets: set<string>) {
    /** Every recorded asset is a custom name whose package is recorded. */
    ghost predicate Consistent() {
      forall n :: n in assets ==> IsCustomName(n) && PackageName(n) in packages
    }

    /** The record after the names have been added one by one. */
    function Recording(names: seq<string>): Usage {
      Usage(packages + PackagesOf(names), assets + CustomNames(names))
    }
  }

  /** Recording one more name is what Add does with it. */
  lemma RecordingOneMore(u: Usage, names: seq<string>, name: string)
    ensures var r := u.Recording(names);
      u.Recording(names + [name]) ==
      if IsCustomName(name) then Usage(r.packages + {PackageName(name)}, r.assets + {name}) else r
  {
    RecordOneMore(names, name);
  }

  /** Recording names keeps every recorded asset's package recorded. */
  lemma RecordingKeepsConsistent(u: Usage, names: seq<string>)
    requires u.Consistent()
    ensures u.Recording(names).Consistent()
  {
    forall n | n in CustomNames(names)
      ensures IsCustomName(n) && PackageName(n) in PackagesOf(names)
    {
      CustomNamesAre(names, n);
      PackagesOfAre(names, PackageName(n));
    }
  }

  // ---------------------------------------------------------------------
  // The city's buildings and the prefab collections
  // ---------------------------------------------------------------------

  /** One slot of BuildingManager's building buffer; flags 0 is
      Building.Flags.None, an unused slot. */
  datatype Building = Building(flags: nat, infoIndex: nat)

  /** The names of the buildings placed in the slots of `buffer`, in slot
      order; slot 0 is never used. */
  function Placed(buffer: seq<Building>, prefabName: nat -> string): seq<string>
    decreases |buffer|
  {
    if |buffer| <= 1 then []
    else
      var last := buffer[|buffer| - 1];
      Placed(buffer[..|buffer| - 1], prefabName) + (if last.flags != 0 then [prefabName(last.infoIndex)] else [])
  }

  /** The placed names are exactly the names of the used slots from 1 on. */
  lemma {:induction false} PlacedNames(buffer: seq<Building>, prefabName: nat -> string, x: string)
    ensures x in Placed(buffer, prefabName) <==>
      exists i :: 1 <= i < |buffer| && buffer[i].flags != 0 && prefabName(buffer[i].infoIndex) == x
    decreases |buffer|
  {
    if |buffer| > 1 {
      var front := buffer[..|buffer| - 1];
      PlacedNames(front, prefabName, x);
      if x in Placed(front, prefabName) {
        var i :| 1 <= i < |front| && front[i].flags != 0 && prefabName(front[i].infoIndex) == x;
        assert buffer[i] == front[i];
      }
      if exists i :: 1 <= i < |buffer| && buffer[i].flags != 0 && prefabName(buffer[i].infoIndex) == x {
        var i :| 1 <= i < |buffer| && buffer[i].flags != 0 && prefabName(buffer[i].infoIndex) == x;
        if i < |buffer| - 1 {
          assert front[i] == buffer[i];
        }
      }
    }
  }

  lemma PlacedStep(buffer: seq<Building>, prefabName: nat -> string, i: nat)
    requires 1 <= i < |buffer|
    ensures Placed(buffer[..i + 1], prefabName) ==
      Placed(buffer[..i], prefabName) + (if buffer[i].flags != 0 then [prefabName(buffer[i].infoIndex)] else [])
  {
    assert buffer[..i + 1][..i] == buffer[..i];
  }

  /** The categories of prefabs UsedAssets keeps a record of. */
  datatype Category = Buildings | Props | Trees | Vehicles

  /** PackageDeserializer.CustomDeserializeHandler values. */
  datatype Handler = Foreign(id: nat) | UsedAssetsHandler

  /** PackageDeserializer's slot for the installed custom deserializer. */
  class HandlerSlot {
    var handler: Handler

    constructor (handler: Handler)
      ensures this.handler == handler
    {
      this.handler := handler;
    }
  }

  /** A package, as the custom deserializer sees it. */
  datatype Package = Package(packageName: string, find: string -> Option<Asset>)

  /** The game state the bookkeeping consults. A prefab is its name. */
  datatype Game = Game(
    findLoaded: (Category, string) -> Option<string>,          // PrefabCollection<P>.FindLoaded
    findLoadedAfterLoad: (Category, string) -> Option<string>, // the same, after an asset was loaded
    loadSucceeds: Asset -> bool,                               // AssetLoader.PropTreeTrailerImpl did not throw
    workshopFind: (string, string) -> Option<Asset>,           // ulong.TryParse, FindPackageBy and Find
    filterAssets: seq<Asset>,                                  // AssetLoader.FilterAssets(Package.AssetType.Object)
    defaultDeserialize: (Type, seq<Token>) -> Result<Hooked>   // the previously installed handler
  )

  // ---------------------------------------------------------------------
  // Asset lookup by name
  // ---------------------------------------------------------------------

  /** Line 234: the query is an asset's full name or, in the early naming,
      its bare name. */
  predicate Matches(name: string, a: Asset) {
    name == a.fullName || name == a.name
  }

  /** The index of the first asset the name matches, or -1. */
  function FirstMatchIndex(name: string, list: seq<Asset>): (i: int)
    ensures -1 <= i < |list|
    ensures i == -1 <==> forall k :: 0 <= k < |list| ==> !Matches(name, list[k])
    ensures i >= 0 ==> Matches(name, list[i]) && forall k :: 0 <= k < i ==> !Matches(name, list[k])
  {
    if |list| == 0 then -1
    else if Matches(name, list[0]) then 0
    else
      var k := FirstMatchIndex(name, list[1..]);
      if k < 0 then -1 else k + 1
  }

  /** Lines 214-225: the workshop fast path, for a dotted name whose
      prefix is a published file id and whose package has the rest. */
  function WorkshopHit(name: string, game: Game): Option<Asset> {
    var j := IndexOfDot(name);
    if 0 <= j < |name| - 1 then game.workshopFind(name[..j], name[j + 1..]) else None
  }

  /** The asset list FindAsset scans: the cached one, or the filtered list
      it then caches. */
  function CachedList(cache: Option<seq<Asset>>, game: Game): seq<Asset> {
    if cache.Some? then cache.value else game.filterAssets
  }

  /** What FindAsset returns when it scans `list`: the workshop hit, else
      the first asset of the list the name matches. */
  function FindAssetIn(name: string, list: seq<Asset>, game: Game): (a: Option<Asset>)
    ensures WorkshopHit(name, game).Some? ==> a == WorkshopHit(name, game)
    ensures WorkshopHit(name, game).None? ==>
      (a.Some? <==> exists k :: 0 <= k < |list| && Matches(name, list[k]))
    ensures WorkshopHit(name, game).None? && a.Some? ==>
      exists k :: 0 <= k < |list| && a.value == list[k] && Matches(name, list[k]) &&
        forall j :: 0 <= j < k ==> !Matches(name, list[j])
  {
    var hit := WorkshopHit(name, game);
    if hit.Some? then hit
    else
      var i := FirstMatchIndex(name, list);
      if i < 0 then None else Some(list[i])
  }

  // ---------------------------------------------------------------------
  // Loading what a building or a vehicle refers to
  // ---------------------------------------------------------------------

  /** Lines 245-264: loading a prop or a tree by name succeeds when the
      name finds an asset whose load does not fail. */
  function PropTreeLoad(name: string, list: seq<Asset>, game: Game): (loaded: Option<Asset>)
    ensures loaded.Some? <==> FindAssetIn(name, list, game).Some? && game.loadSucceeds(FindAssetIn(name, list, game).value)
    ensures loaded.Some? ==> loaded == FindAssetIn(name, list, game)
  {
    var data := FindAssetIn(name, list, game);
    if data.Some? && game.loadSucceeds(data.value) then data else None
  }

  /** Lines 166-172: the prefab a building's prop or tree slot refers to.
      A loaded prefab is used as it is; an empty name stays unresolved;
      otherwise the named asset is loaded and its prefab looked up by the
      asset's full name. */
  function PrefabFor(game: Game, c: Category, name: string, list: seq<Asset>): (info: Option<string>)
    ensures game.findLoaded(c, name).Some? || name == [] ==> info == game.findLoaded(c, name)
    ensures game.findLoaded(c, name).None? && name != [] ==>
      info == (if PropTreeLoad(name, list, game).Some?
               then game.findLoadedAfterLoad(c, PropTreeLoad(name, list, game).value.fullName)
               else None)
  {
    var found := game.findLoaded(c, name);
    if found.Some? || name == [] then found
    else
      var data := PropTreeLoad(name, list, game);
      if data.Some? then game.findLoadedAfterLoad(c, data.value.fullName) else None
  }

  /** Lines 266-284: loading a trailer looks its bare name up in the
      vehicle's own package. */
  function LoadsTrailer(package: Package, name: string, game: Game): (loaded: bool)
    ensures loaded <==> package.find(name).Some? && game.loadSucceeds(package.find(name).value)
  {
    var data := package.find(name);
    data.Some? && game.loadSucceeds(data.value)
  }

  /** Line 188: the prefab key of a trailer. */
  function TrailerKey(package: Package, name: string): (key: string)
    ensures |key| == |package.packageName| + 1 + |name|
    ensures key[..|package.packageName|] == package.packageName
    ensures key[|package.packageName|] == '.' && key[|package.packageName| + 1..] == name
  {
    package.packageName + "." + name
  }

  /** Lines 189-192: a trailer's prefab, loaded from its package when it
      is not loaded yet. */
  function TrailerFor(package: Package, name: string, game: Game): (info: Option<string>)
    ensures game.findLoaded(Vehicles, TrailerKey(package, name)).Some? ==>
      info == game.findLoaded(Vehicles, TrailerKey(package, name))
    ensures info.Some? && game.findLoaded(Vehicles, TrailerKey(package, name)).None? ==>
      LoadsTrailer(package, name, game) && info == game.findLoadedAfterLoad(Vehicles, TrailerKey(package, name))
    ensures game.findLoaded(Vehicles, TrailerKey(package, name)).None? && LoadsTrailer(package, name, game) ==>
      info == game.findLoadedAfterLoad(Vehicles, TrailerKey(package, name))
    ensures !LoadsTrailer(package, name, game) ==> info == game.findLoaded(Vehicles, TrailerKey(package, name))
  {
    var key := TrailerKey(package, name);
    var found := game.findLoaded(Vehicles, key);
    if found.None? && LoadsTrailer(package, name, game) then game.findLoadedAfterLoad(Vehicles, key) else found
  }

  // ---------------------------------------------------------------------
  // The custom deserializer's stream layouts
  // ---------------------------------------------------------------------

  /** Lines 163-181: a BuildingInfo.Prop is a prop name, a tree name, a
      position, an angle, a probability and a fixed-height flag. */
  predicate PropLayoutAt(s: seq<Token>, p: nat) {
    p + 6 <= |s| && s[p].TStr? && s[p + 1].TStr? &&
    s[p + 2].TValue? && s[p + 2].kind == Vector3 && s[p + 3].TValue? && s[p + 3].kind == Single &&
    s[p + 4].TInt? && s[p + 5].TBool?
  }

  /** Lines 189-199: a VehicleInfo.VehicleTrailer is a name, a probability
      and an inverted probability. */
  predicate TrailerLayoutAt(s: seq<Token>, p: nat) {
    p + 3 <= |s| && s[p].TStr? && s[p + 1].TInt? && s[p + 2].TInt?
  }

  /** Lines 161-183: a building's prop read from p. */
  function PropAt(game: Game, list: seq<Asset>, s: seq<Token>, p: nat): (r: Result<Step<Value>>)
    requires p <= |s|
    ensures r.Ok? <==> PropLayoutAt(s, p)
    ensures r.Ok? ==>
              r.value.next == p + 6 &&
              r.value.value == PropValue(PrefabFor(game, Props, s[p].text, list), PrefabFor(game, Trees, s[p + 1].text, list),
                                         s[p + 2], s[p + 3], s[p + 4].number, s[p + 5].flag)
  {
    var propName :- ReadStringAt(s, p);
    var treeName :- ReadStringAt(s, propName.next);
    var position :- ReadValueAt(s, treeName.next, Vector3);
    var angle :- ReadValueAt(s, position.next, Single);
    var probability :- ReadIntAt(s, angle.next);
    var fixedHeight :- ReadBoolAt(s, probability.next);
    Ok(Step(PropValue(PrefabFor(game, Props, propName.value, list), PrefabFor(game, Trees, treeName.value, list),
                      position.value, angle.value, probability.value, fixedHeight.value), fixedHeight.next))
  }

  /** Lines 187-201: a vehicle's trailer read from p. */
  function TrailerAt(package: Package, game: Game, s: seq<Token>, p: nat): (r: Result<Step<Value>>)
    requires p <= |s|
    ensures r.Ok? <==> TrailerLayoutAt(s, p)
    ensures r.Ok? ==>
              r.value.next == p + 3 &&
              r.value.value == TrailerValue(TrailerFor(package, s[p].text, game), s[p + 1].number, s[p + 2].number)
  {
    var name :- ReadStringAt(s, p);
    var probability :- ReadIntAt(s, name.next);
    var invertProbability :- ReadIntAt(s, probability.next);
    Ok(Step(TrailerValue(TrailerFor(package, name.value, game), probability.value, invertProbability.value),
            invertProbability.next))
  }

  /** Line 203: what the previously installed handler returns, read from p. */
  function DefaultAt(game: Game, t: Type, s: seq<Token>, p: nat): (r: Result<Step<Value>>)
    requires p <= |s|
    ensures r.Ok? ==> p <= r.value.next <= |s|
    ensures r.Ok? <==>
              game.defaultDeserialize(t, s[p..]).Ok? && game.defaultDeserialize(t, s[p..]).value.used <= |s| - p
    ensures r.Ok? ==>
              r.value == Step(game.defaultDeserialize(t, s[p..]).value.value, p + game.defaultDeserialize(t, s[p..]).value.used)
  {
    var h :- game.defaultDeserialize(t, s[p..]);
    if h.used > |s| - p then Err(EndOfStream) else Ok(Step(h.value, p + h.used))
  }

  /** Lines 152-204: the custom deserializer UsedAssets installs. */
  function UsedAssetsAt(package: Package, t: Type, game: Game, list: seq<Asset>, s: seq<Token>, p: nat)
    : (r: Result<Step<Value>>)
    requires p <= |s|
    ensures t == SingleType ==> r == ScalarAt(s, p, Single)
    ensures t == Vector2Type ==> r == ScalarAt(s, p, Vector2)
    ensures t == BuildingPropType ==> r == PropAt(game, list, s, p)
    ensures t == VehicleTrailerType ==> r == TrailerAt(package, game, s, p)
    ensures !(t in {SingleType, Vector2Type, BuildingPropType, VehicleTrailerType}) ==> r == DefaultAt(game, t, s, p)
  {
    if t == SingleType then ScalarAt(s, p, Single)
    else if t == Vector2Type then ScalarAt(s, p, Vector2)
    else if t == BuildingPropType then PropAt(game, list, s, p)
    else if t == VehicleTrailerType then TrailerAt(package, game, s, p)
    else DefaultAt(game, t, s, p)
  }

  // ---------------------------------------------------------------------
  // UsedAssets
  // ---------------------------------------------------------------------

  class UsedAssets {
    var buildings: Usage
    var props: Usage
    var trees: Usage
    var vehicles: Usage
    /** The asset list FindAsset fills once and reuses. */
    var assets: Option<seq<Asset>>
    /** PackageDeserializer's handler slot, and the handler that was
        installed before UsedAssets was first used. */
    const slot: HandlerSlot
    const defaultHandler: Handler

    function Used(c: Category): Usage
      reads this
    {
      match c
      case Buildings => buildings
      case Props => props
      case Trees => trees
      case Vehicles => vehicles
    }

    function Packages(c: Category): set<string>
      reads this
    {
      Used(c).packages
    }

    function Assets(c: Category): set<string>
      reads this
    {
      Used(c).assets
    }

    /** Every recorded asset is a custom name whose package is recorded in
        the same category. */
    ghost predicate Valid()
      reads this
    {
      buildings.Consistent() && props.Consistent() && trees.Consistent() && vehicles.Consistent()
    }

    constructor (slot: HandlerSlot, defaultHandler: Handler)
      ensures this.slot == slot && this.defaultHandler == defaultHandler
      ensures forall c :: Packages(c) == {} && Assets(c) == {}
      ensures assets == None && Valid()
    {
      this.slot := slot;
      this.defaultHandler := defaultHandler;
      buildings, props, trees, vehicles := Usage({}, {}), Usage({}, {}), Usage({}, {}), Usage({}, {});
      assets := None;
    }

    /** Add: records a custom name and its package; any other name is
        ignored. */
    static method Add(name: string, u: Usage) returns (u': Usage)
      ensures IsCustomName(name) ==> u' == Usage(u.packages + {PackageName(name)}, u.assets + {name})
      ensures !IsCustomName(name) ==> u' == u
    {
      u' := u;
      var j := IndexOfDot(name);
      if |name| > 0 && j >= 0 && j < |name| - 1 {
        u' := Usage(u'.packages + {name[..j]}, u'.assets + {name});
      }
    }

    /** LookupSimulationBuildings: records the buildings placed in the
        city, skipping slot 0 and unused slots. */
    static method LookupSimulationBuildings(buffer: seq<Building>, prefabName: nat -> string, u: Usage)
      returns (u': Usage)
      ensures u' == u.Recording(Placed(buffer, prefabName))
    {
      u' := u;
      var n := |buffer|;
      if n == 0 {
        assert CustomNames([]) == {} && PackagesOf([]) == {};
        return;
      }
      var i := 1;
      assert Placed(buffer[..1], prefabName) == [];
      while i < n
        invariant 1 <= i <= n
        invariant u' == u.Recording(Placed(buffer[..i], prefabName))
      {
        PlacedStep(buffer, prefabName, i);
        if buffer[i].flags != 0 {
          var name := prefabName(buffer[i].infoIndex);
          RecordingOneMore(u, Placed(buffer[..i], prefabName), name);
          u' := Add(name, u');
        } else {
          assert Placed(buffer[..i + 1], prefabName) == Placed(buffer[..i], prefabName);
        }
        i := i + 1;
      }
      assert buffer[..n] == buffer;
    }

    /** LookupSimulationAssets: records every prefab of one collection, in
        PrefabCollection order. */
    static method LookupSimulationAssets(prefabNames: seq<string>, u: Usage) returns (u': Usage)
      ensures u' == u.Recording(prefabNames)
    {
      u' := u;
      var i := 0;
      assert CustomNames([]) == {} && PackagesOf([]) == {};
      while i < |prefabNames|
        invariant 0 <= i <= |prefabNames|
        invariant u' == u.Recording(prefabNames[..i])
      {
        assert prefabNames[..i + 1] == prefabNames[..i] + [prefabNames[i]];
        RecordingOneMore(u, prefabNames[..i], prefabNames[i]);
        u' := Add(prefabNames[i], u');
        i := i + 1;
      }
      assert prefabNames[..i] == prefabNames;
    }

    /** LookupUsed: buildings from the building buffer, then props, trees
        and vehicles from their prefab collections. */
    method LookupUsed(buffer: seq<Building>, buildingName: nat -> string,
                      propNames: seq<string>, treeNames: seq<string>, vehicleNames: seq<string>)
      modifies this
      ensures buildings == old(buildings).Recording(Placed(buffer, buildingName))
      ensures props == old(props).Recording(propNames)
      ensures trees == old(trees).Recording(treeNames)
      ensures vehicles == old(vehicles).Recording(vehicleNames)
      ensures assets == old(assets)
      ensures old(Valid()) ==> Valid()
    {
      if Valid() {
        RecordingKeepsConsistent(buildings, Placed(buffer, buildingName));
        RecordingKeepsConsistent(props, propNames);
        RecordingKeepsConsistent(trees, treeNames);
        RecordingKeepsConsistent(vehicles, vehicleNames);
      }
      buildings := LookupSimulationBuildings(buffer, buildingName, buildings);
      props := LookupSimulationAssets(propNames, props);
      trees := LookupSimulationAssets(treeNames, trees);
      vehicles := LookupSimulationAssets(vehicleNames, vehicles);
    }

    /** Setup: records what the city uses and installs CustomDeserialize. */
    method Setup(buffer: seq<Building>, buildingName: nat -> string,
                 propNames: seq<string>, treeNames: seq<string>, vehicleNames: seq<string>)
      modifies this, slot
      ensures slot.handler == UsedAssetsHandler
      ensures buildings == old(buildings).Recording(Placed(buffer, buildingName))
      ensures props == old(props).Recording(propNames)
      ensures trees == old(trees).Recording(treeNames)
      ensures vehicles == old(vehicles).Recording(vehicleNames)
      ensures assets == old(assets)
      ensures old(Valid()) ==> Valid()
    {
      LookupUsed(buffer, buildingName, propNames, treeNames, vehicleNames);
      slot.handler := UsedAssetsHandler;
    }

    /** Dispose: reinstalls the earlier handler and forgets every record
        and the cached asset list. */
    method Dispose()
      modifies this, slot
      ensures slot.handler == defaultHandler
      ensures forall c :: Packages(c) == {} && Assets(c) == {}
      ensures assets == None && Valid()
    {
      slot.handler := defaultHandler;
      buildings, props, trees, vehicles := Usage({}, {}), Usage({}, {}), Usage({}, {}), Usage({}, {});
      assets := None;
    }

    /** GotPropTreeTrailerPackage: a recorded prop, tree or vehicle
        package, or any dotted name. */
    function GotPropTreeTrailerPackage(packageName: string): (b: bool)
      reads this
      ensures b <==> packageName in Packages(Props) || packageName in Packages(Trees) ||
                     packageName in Packages(Vehicles) || '.' in packageName
    {
      packageName in props.packages || packageName in trees.packages || packageName in vehicles.packages ||
      IndexOfDot(packageName) >= 0
    }

    /** GotBuildingVehiclePackage: a recorded building or vehicle package,
        or any dotted name. */
    function GotBuildingVehiclePackage(packageName: string): (b: bool)
      reads this
      ensures b <==> packageName in Packages(Buildings) || packageName in Packages(Vehicles) || '.' in packageName
    {
      packageName in buildings.packages || packageName in vehicles.packages || IndexOfDot(packageName) >= 0
    }

    /** GotProp: a recorded prop's package passes the package query. */
    function GotProp(fullName: string): (b: bool)
      reads this
      ensures b && Valid() ==> IsCustomName(fullName) && GotPropTreeTrailerPackage(PackageName(fullName))
    {
      fullName in Assets(Props)
    }

    /** GotTree: a recorded tree's package passes the package query. */
    function GotTree(fullName: string): (b: bool)
      reads this
      ensures b && Valid() ==> IsCustomName(fullName) && GotPropTreeTrailerPackage(PackageName(fullName))
    {
      fullName in Assets(Trees)
    }

    /** GotBuilding: a recorded building's package passes the package query. */
    function GotBuilding(fullName: string): (b: bool)
      reads this
      ensures b && Valid() ==> IsCustomName(fullName) && GotBuildingVehiclePackage(PackageName(fullName))
    {
      fullName in Assets(Buildings)
    }

    /** GotVehicle: a vehicle's package passes both package queries. */
    function GotVehicle(fullName: string): (b: bool)
      reads this
      ensures b && Valid() ==>
                IsCustomName(fullName) &&
                GotBuildingVehiclePackage(PackageName(fullName)) && GotPropTreeTrailerPackage(PackageName(fullName))
    {
      fullName in Assets(Vehicles)
    }

    /** AnyMissing<P>: some name of the set is neither ignored nor loaded. */
    static method AnyMissingIn(c: Category, fullNames: set<string>, ignore: set<string>, game: Game)
      returns (b: bool)
      ensures b <==> exists n :: n in fullNames && n !in ignore && game.findLoaded(c, n).None?
    {
      var rest := fullNames;
      while rest != {}
        invariant rest <= fullNames
        invariant forall n :: n in fullNames && n !in rest ==> n in ignore || game.findLoaded(c, n).Some?
        decreases |rest|
      {
        var n :| n in rest;
        if n !in ignore && game.findLoaded(c, n).None? {
          return true;
        }
        rest := rest - {n};
      }
      return false;
    }

    /** AnyMissing: some recorded asset of any category is neither ignored
        nor loaded; buildings, props, trees and vehicles are asked in that
        order. */
    method AnyMissing(ignore: set<string>, game: Game) returns (b: bool)
      ensures b <==> exists c, n :: n in Assets(c) && n !in ignore && game.findLoaded(c, n).None?
    {
      b := AnyMissingIn(Buildings, buildings.assets, ignore, game);
      if !b {
        b := AnyMissingIn(Props, props.assets, ignore, game);
      }
      if !b {
        b := AnyMissingIn(Trees, trees.assets, ignore, game);
      }
      if !b {
        b := AnyMissingIn(Vehicles, vehicles.assets, ignore, game);
      }
      if !b {
        forall c, n | n in Assets(c) && n !in ignore
          ensures game.findLoaded(c, n).Some?
        {
        }
      }
    }

    /** FindAsset: the workshop fast path, then the first asset of the
        cached asset list whose full or bare name is the query. */
    method FindAsset(name: string, game: Game) returns (a: Option<Asset>)
      modifies this`assets
      ensures a == FindAssetIn(name, CachedList(old(assets), game), game)
      ensures CachedList(assets, game) == CachedList(old(assets), game)
      ensures old(assets).Some? ==> assets == old(assets)
      ensures WorkshopHit(name, game).Some? ==> assets == old(assets)
      ensures WorkshopHit(name, game).None? ==> assets == Some(CachedList(old(assets), game))
    {
      var j := IndexOfDot(name);
      if j >= 0 && j < |name| - 1 {
        var asset := game.workshopFind(name[..j], name[j + 1..]);
        if asset.Some? {
          return asset;
        }
      }
      var list: seq<Asset>;
      if assets.None? {
        list := game.filterAssets;
        assets := Some(list);
      } else {
        list := assets.value;
      }
      var i := 0;
      while i < |list|
        invariant 0 <= i <= |list|
        invariant forall k :: 0 <= k < i ==> !Matches(name, list[k])
      {
        if name == list[i].fullName || name == list[i].name {
          assert FirstMatchIndex(name, list) == i;
          return Some(list[i]);
        }
        i := i + 1;
      }
      return None;
    }

    /** LoadPropTree: loads the asset the name finds; on success the name
        becomes the asset's full name. */
    method LoadPropTree(fullName: string, game: Game) returns (loaded: bool, newName: string)
      modifies this`assets
      ensures var data := PropTreeLoad(fullName, CachedList(old(assets), game), game);
        loaded == data.Some? && newName == (if loaded then data.value.fullName else fullName)
      ensures CachedList(assets, game) == CachedList(old(assets), game)
      ensures old(assets).Some? ==> assets == old(assets)
    {
      var data := FindAsset(fullName, game);
      if data.Some? && game.loadSucceeds(data.value) {
        return true, data.value.fullName;
      }
      return false, fullName;
    }

    /** The prop or tree a building slot refers to, loading it if needed. */
    method ResolvePrefab(c: Category, name: string, game: Game) returns (info: Option<string>)
      modifies this`assets
      ensures info == PrefabFor(game, c, name, CachedList(old(assets), game))
      ensures CachedList(assets, game) == CachedList(old(assets), game)
      ensures old(assets).Some? ==> assets == old(assets)
    {
      info := game.findLoaded(c, name);
      if info.None? && name != [] {
        var loaded, newName := LoadPropTree(name, game);
        if loaded {
          info := game.findLoadedAfterLoad(c, newName);
        }
      }
    }

    /** Lines 161-183: reads a building's prop. */
    method DeserializeProp(r: PackageReader, game: Game) returns (res: Result<Value>)
      requires r.Valid()
      modifies this`assets, r
      ensures r.Valid()
      ensures AtCursor(res, r.pos) == PropAt(game, CachedList(old(assets), game), r.tokens, old(r.pos))
      ensures CachedList(assets, game) == CachedList(old(assets), game)
      ensures old(assets).Some? ==> assets == old(assets)
    {
      ghost var list := CachedList(assets, game);
      var propName :- r.ReadString();
      var treeName :- r.ReadString();
      var pi := ResolvePrefab(Props, propName, game);
      var ti := ResolvePrefab(Trees, treeName, game);
      var position :- r.ReadValue(Vector3);
      var angle :- r.ReadValue(Single);
      var probability :- r.ReadInt32();
      var fixedHeight :- r.ReadBoolean();
      return Ok(PropValue(pi, ti, position, angle, probability, fixedHeight));
    }

    /** Lines 187-201: reads a vehicle's trailer. */
    method DeserializeTrailer(p: Package, r: PackageReader, game: Game) returns (res: Result<Value>)
      requires r.Valid()
      modifies r
      ensures r.Valid()
      ensures AtCursor(res, r.pos) == TrailerAt(p, game, r.tokens, old(r.pos))
    {
      var name :- r.ReadString();
      var trailerName := p.packageName + "." + name;
      var vi := game.findLoaded(Vehicles, trailerName);
      if vi.None? && LoadsTrailer(p, name, game) {
        vi := game.findLoadedAfterLoad(Vehicles, trailerName);
      }
      var probability :- r.ReadInt32();
      var invertProbability :- r.ReadInt32();
      return Ok(TrailerValue(vi, probability, invertProbability));
    }

    /** CustomDeserialize: float and Vector2 directly, a building's prop
        and a vehicle's trailer by their fixed layouts, anything else by
        the handler that was installed before. */
    method CustomDeserialize(p: Package, t: Type, r: PackageReader, game: Game) returns (res: Result<Value>)
      requires r.Valid()
      modifies this`assets, r
      ensures r.Valid()
      ensures AtCursor(res, r.pos) == UsedAssetsAt(p, t, game, CachedList(old(assets), game), r.tokens, old(r.pos))
      ensures CachedList(assets, game) == CachedList(old(assets), game)
      ensures old(assets).Some? ==> assets == old(assets)
    {
      if t == SingleType {
        var v :- r.ReadValue(Single);
        return Ok(Scalar(v));
      }
      if t == Vector2Type {
        var v :- r.ReadValue(Vector2);
        return Ok(Scalar(v));
      }
      if t == BuildingPropType {
        res := DeserializeProp(r, game);
        return;
      }
      if t == VehicleTrailerType {
        res := DeserializeTrailer(p, r, game);
        return;
      }
      res := DeserializeByDefault(t, r, game);
    }

    /** Line 203: the handler installed before reads the value. */
    static method DeserializeByDefault(t: Type, r: PackageReader, game: Game) returns (res: Result<Value>)
      requires r.Valid()
      modifies r
      ensures r.Valid()
      ensures AtCursor(res, r.pos) == DefaultAt(game, t, r.tokens, old(r.pos))
    {
      var hooked :- game.defaultDeserialize(t, r.tokens[r.pos..]);
      var advanced :- r.Advance(hooked.used);
      return Ok(hooked.value);
    }
  }
}
