/** Choosing the handler of a request: the location with the longest slash-terminated form that
    starts the slash-terminated target. */
module Dispatcher {
  import opened Options
  import opened ConfigSettings
  import ConfigSyntax
  import ConfigMachine
  import ConfigPositions

  function Slashed(p: string): string {
    if EndsWithSlash(p) then p else p + "/"
  }

  /** Ending both with a slash keeps a location from matching half a directory name. */
  predicate Covers(location: string, target: string) {
    Slashed(location) <= Slashed(target)
  }

  /** The best of some locations: the longest slash-terminated one that covers the target, and of
      two spellings of it the one that ends with a slash. */
  ghost predicate IsBest(locations: set<string>, target: string, best: Option<string>) {
    match best
    case None => forall l :: l in locations ==> !Covers(l, target)
    case Some(b) =>
      && b in locations && Covers(b, target)
      && forall l :: l in locations && Covers(l, target) ==>
           |Slashed(l)| <= |Slashed(b)| && (|Slashed(l)| == |Slashed(b)| && EndsWithSlash(l) ==> l == b)
  }

  /** Two locations that cover the target and are equally long are spellings of one another. */
  lemma {:induction false} SameLength(a: string, b: string, target: string)
    requires Covers(a, target) && Covers(b, target) && |Slashed(a)| == |Slashed(b)|
    ensures Slashed(a) == Slashed(b)
    ensures EndsWithSlash(a) == EndsWithSlash(b) ==> a == b
  {
    assert Slashed(a) == Slashed(target)[..|Slashed(a)|] == Slashed(b);
    if EndsWithSlash(a) == EndsWithSlash(b) && !EndsWithSlash(a) {
      assert a == Slashed(a)[..|a|] && b == Slashed(b)[..|b|];
    }
  }

  /** So there is one best location, whatever the order in which they are tried. */
  lemma {:induction false} BestIsUnique(locations: set<string>, target: string, a: Option<string>, b: Option<string>)
    requires IsBest(locations, target, a) && IsBest(locations, target, b)
    ensures a == b
  {
    if a.Some? && b.Some? {
      SameLength(a.value, b.value, target);
    }
  }

  /** The data that the chosen handler is made with. */
  datatype HandlerData = HandlerData(locationPath: string, root: string, dataPath: string)

  function Directive(info: ConfigInfo, location: string, name: string): string {
    if location in info.directives && name in info.directives[location] then info.directives[location][name] else ""
  }

  /** The handler of the best location, made with that location's own directives. */
  ghost predicate IsSelected(info: ConfigInfo, target: string, handler: Option<string>, data: HandlerData) {
    && (match handler
        case None => IsBest(info.handlers.Keys, target, None) && data.locationPath == ""
        case Some(h) =>
          && IsBest(info.handlers.Keys, target, Some(data.locationPath))
          && h == info.handlers[data.locationPath])
    && data.root == Directive(info, data.locationPath, "root")
    && data.dataPath == Directive(info, data.locationPath, "data_path")
  }

  /** The matching loop: it compares the slash-terminated length of a candidate with the raw length
      of the best location so far. Locations are tried in any order, and are not empty. */
  method Select(info: ConfigInfo, target: string) returns (handler: Option<string>, data: HandlerData)
    requires "" !in info.handlers && target != ""
    ensures IsSelected(info, target, handler, data)
  {
    handler := None;
    var longest := "";
    var untried := info.handlers.Keys;
    while untried != {}
      invariant untried <= info.handlers.Keys
      invariant handler == None ==> longest == "" && IsBest(info.handlers.Keys - untried, target, None)
      invariant handler.Some? ==>
        longest in info.handlers && handler.value == info.handlers[longest] &&
        IsBest(info.handlers.Keys - untried, target, Some(longest))
      decreases |untried|
    {
      var location :| location in untried;
      var path := if location[|location| - 1] == '/' then location else location + "/";
      var compared := if target[|target| - 1] == '/' then target else target + "/";
      if path <= compared && |path| > |longest| {
        if handler.Some? { Supersedes(info.handlers.Keys - untried, longest, location, target); }
        longest := location;
        handler := Some(info.handlers[location]);
      } else if path <= compared {
        Keeps(longest, location, target);
      }
      untried := untried - {location};
    }
    data := HandlerData(longest, Directive(info, longest, "root"), Directive(info, longest, "data_path"));
  }

  /** A candidate longer than the raw best is the new best: if only the missing slash made it
      longer, it is the slash-ended spelling. */
  lemma {:induction false} Supersedes(tried: set<string>, best: string, candidate: string, target: string)
    requires IsBest(tried, target, Some(best)) && Covers(candidate, target) && |Slashed(candidate)| > |best|
    ensures IsBest(tried + {candidate}, target, Some(candidate))
  {
    if |Slashed(candidate)| == |Slashed(best)| {
      SameLength(candidate, best, target);
    }
    forall l | l in tried && Covers(l, target) && |Slashed(l)| == |Slashed(candidate)| && EndsWithSlash(l)
      ensures l == candidate
    {
      SameLength(l, candidate, target);
    }
  }

  lemma {:induction false} Keeps(best: string, candidate: string, target: string)
    requires best != "" ==> Covers(best, target)
    requires Covers(candidate, target) && |Slashed(candidate)| <= |best|
    ensures |Slashed(candidate)| <= |Slashed(best)|
    ensures |Slashed(candidate)| == |Slashed(best)| && EndsWithSlash(candidate) ==> candidate == best
  {
    if best != "" && |Slashed(candidate)| == |Slashed(best)| { SameLength(candidate, best, target); }
  }

  // ---------------------------------------------------------------------------------------
  // From the configuration to the handler
  // ---------------------------------------------------------------------------------------

  /** A location path without the one slash that the CRUD handler's constructor removes. */
  function WithoutSlash(location: string): string {
    if EndsWithSlash(location) then location[..|location| - 1] else location
  }

  /** A covering location covers whole path segments: what it leaves of the target is empty or
      starts with a slash, and the two together are the target. */
  lemma {:induction false} CoversSegments(location: string, target: string)
    requires Covers(location, target)
    ensures var prefix := WithoutSlash(location);
            prefix <= target && (target[|prefix|..] == "" || target[|prefix|] == '/') &&
            prefix + target[|prefix|..] == target
  {
    var prefix := WithoutSlash(location);
    assert Slashed(location) == prefix + "/";
    assert Slashed(location)[|prefix|] == '/' && Slashed(target)[|prefix|] == '/';
    assert prefix == Slashed(target)[..|prefix|] == target[..|prefix|];
  }

  /** Among distinct places with a place "/", every target that starts with a slash has a longest
      covering place, no other covering place is as long, and what it covers is whole segments. */
  lemma {:induction false} PlacesDispatched(info: ConfigInfo, port: int, places: seq<Place>, target: string)
    returns (place: Place)
    requires DistinctPlaces(places) && Tabulates(info, port, places) && "/" in Paths(places)
    requires target != "" && target[0] == '/'
    ensures place in places && info.handlers[place.path] == place.handler
    ensures IsBest(info.handlers.Keys, target, Some(place.path))
    ensures forall p :: p in places && Covers(p.path, target) && p != place ==>
      |Slashed(p.path)| < |Slashed(place.path)|
    ensures WithoutSlash(place.path) <= target
    ensures target == WithoutSlash(place.path) || target[|WithoutSlash(place.path)|] == '/'
  {
    var i := BestPlace(info.handlers.Keys, places, target);
    place := places[i];
    CoversSegments(place.path, target);
    forall p | p in places && Covers(p.path, target) && p != place ensures |Slashed(p.path)| < |Slashed(place.path)| {
      hide *;
      var j :| 0 <= j < |places| && places[j] == p;
      OnlyLongest(info.handlers.Keys, places, i, j, target);
    }
    assert TabulatesPlace(info, place);
  }

  lemma {:induction false} BestPlace(locations: set<string>, places: seq<Place>, target: string) returns (i: nat)
    requires locations == Paths(places) && "/" in locations && target != "" && target[0] == '/'
    ensures i < |places| && IsBest(locations, target, Some(places[i].path)) && Covers(places[i].path, target)
  {
    assert Covers("/", target) by { assert Slashed(target)[0] == '/'; assert Slashed("/") == "/"; }
    var best := Longest(locations, target);
    i :| 0 <= i < |places| && places[i].path == best.value;
  }

  lemma {:induction false} OnlyLongest(locations: set<string>, places: seq<Place>, i: nat, j: nat, target: string)
    requires i < |places| && j < |places| && i != j && DistinctPlaces(places) && locations == Paths(places)
    requires IsBest(locations, target, Some(places[i].path)) && Covers(places[j].path, target)
    ensures |Slashed(places[j].path)| < |Slashed(places[i].path)|
  {
    assert places[j].path in locations;
    TrimSlashed(places[i].path);
    TrimSlashed(places[j].path);
    if |Slashed(places[j].path)| == |Slashed(places[i].path)| { SameLength(places[j].path, places[i].path, target); }
  }

  lemma {:induction false} StatementPathsNotEmpty(s: ConfigSyntax.Statement, j: nat)
    requires ReadableStatement(s)
    ensures forall item :: item in StatementItems(s, j) && item.Location? ==> item.place.path != ""
    decreases |s.tokens| - j
  {
    if j + 1 < |s.tokens| {
      assert ReadableAt(s, j);
      StatementPathsNotEmpty(s, j + 1);
    }
  }

  lemma {:induction false} ItemPathsNotEmpty(c: ConfigSyntax.Config)
    requires forall i :: 0 <= i < |c| ==> ReadableStatement(c[i])
    ensures forall item :: item in Items(c) && item.Location? ==> item.place.path != ""
    decreases |c|
  {
    if c != [] {
      StatementPathsNotEmpty(c[0], 0);
      hide StatementItems, ReadableStatement;
      ItemPathsNotEmpty(c[1..]);
    }
  }

  lemma {:induction false} PlacesAreItems(items: seq<Item>)
    ensures forall p :: p in Places(items) ==> Location(p) in items
    decreases |items|
  {
    if items != [] { PlacesAreItems(items[..|items| - 1]); }
  }

  /** From an accepted text with a location "/" to the handler: the tables have no empty location,
      so the matching loop may be called on them, and every target that starts with a slash goes to
      the handler of exactly one location statement, on a segment boundary. */
  lemma {:induction false} EveryTargetDispatched(text: string, info: ConfigInfo, target: string) returns (place: Place)
    requires ConfigMachine.Parse(text).Accepted?
    requires var c := ConfigMachine.Parse(text).config;
             && (forall i :: 0 <= i < |c| ==> ReadableStatement(c[i]))
             && DistinctPlaces(Places(Items(c))) && Tabulates(info, LastPort(Items(c)), Places(Items(c)))
             && "/" in Paths(Places(Items(c)))
    requires target != "" && target[0] == '/'
    ensures "" !in info.handlers
    ensures place in Places(Items(ConfigMachine.Parse(text).config)) && info.handlers[place.path] == place.handler
    ensures IsBest(info.handlers.Keys, target, Some(place.path))
    ensures WithoutSlash(place.path) <= target
    ensures target == WithoutSlash(place.path) || target[|WithoutSlash(place.path)|] == '/'
  {
    hide ConfigMachine.Parse, ReadableStatement, Items, Places, LastWins, LastPort, EachTabulated, IsBest;
    var c := ConfigMachine.Parse(text).config;
    var places := Places(Items(c));
    ItemPathsNotEmpty(c);
    PlacesAreItems(Items(c));
    forall i | 0 <= i < |places| ensures places[i].path != "" {
      assert Location(places[i]) in Items(c);
    }
    place := PlacesDispatched(info, LastPort(Items(c)), places, target);
  }

  /** A handler is given the word after the last occurrence of a directive's name in its block, or an
      empty string where the name does not occur. */
  ghost predicate IsGiven(block: ConfigSyntax.Config, name: string, value: string) {
    || ConfigPositions.Says(block, name, Some(value))
    || (ConfigPositions.Says(block, name, None) && value == "")
  }

  /** What Select gives is right by the text: it names a location statement, the word after the path is
      the handler, and the handler's data are what the statement's block says. */
  lemma {:induction false} SelectedByPosition(text: string, info: ConfigInfo, target: string, handler: Option<string>,
                                              data: HandlerData) returns (i: nat, j: nat)
    requires ConfigMachine.Parse(text).Accepted? && ConfigPositions.AllReadable(ConfigMachine.Parse(text).config)
    requires var c := ConfigMachine.Parse(text).config; Tabulates(info, LastPort(Items(c)), Places(Items(c)))
    requires IsSelected(info, target, handler, data) && handler.Some?
    ensures var c := ConfigMachine.Parse(text).config;
            && ConfigPositions.IsSetting(c, i, j, "location")
            && j + 2 < |c[i].tokens| && c[i].Block?
            && ConfigPositions.Means(c[i].tokens[j + 1], data.locationPath)
            && handler.value == c[i].tokens[j + 2]
            && IsGiven(c[i].child, "root", data.root) && IsGiven(c[i].child, "data_path", data.dataPath)
  {
    var c := ConfigMachine.Parse(text).config;
    assert data.locationPath in info.handlers;
    ConfigMachine.AcceptedWords(text);
    hide ConfigMachine.Parse, ConfigPositions.AllReadable, ConfigSyntax.AllWords, ConfigSyntax.WellFormed, Tabulates,
      ConfigPositions.Says, ConfigPositions.Means, IsBest;
    i, j := ConfigPositions.PathLocated(info, c, data.locationPath);
    ConfigPositions.SettingReadable(c, i, j);
    assert ConfigPositions.Says(c[i].child, "root", ConfigPositions.Stored(info, data.locationPath, "root"));
    assert ConfigPositions.Says(c[i].child, "data_path", ConfigPositions.Stored(info, data.locationPath, "data_path"));
  }

  lemma {:induction false} TrimSlashed(p: string)
    ensures Trim(Slashed(p)) == Trim(p)
  {
    assert Slashed(p)[..|Slashed(p)| - 1] == WithoutSlash(p);
  }

  lemma {:induction false} Longest(locations: set<string>, target: string) returns (best: Option<string>)
    ensures IsBest(locations, target, best)
    decreases |locations|
  {
    if locations == {} {
      best := None;
    } else {
      var l :| l in locations;
      var rest := locations - {l};
      best := Longest(rest, target);
      assert locations == rest + {l};
      if Covers(l, target) {
        if best == None || |Slashed(l)| > |best.value| {
          if best.Some? { Supersedes(rest, best.value, l, target); }
          best := Some(l);
        } else {
          Keeps(best.value, l, target);
        }
      }
    }
  }
}
