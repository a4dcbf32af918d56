/** Reading the server's settings out of a parsed configuration. */
module ConfigSettings {
  import opened ConfigSyntax
  import opened Decimal
  import opened Options

  datatype ConfigInfo =
    ConfigInfo(port: int, handlers: map<string, string>, directives: map<string, map<string, string>>)

  const MAX_PORT := 65353

  /** The text between the quotes of a quoted word, and any other word itself. */
  function Unquote(t: string): string {
    if t != "" && (t[0] == '"' || t[0] == '\'') then (if |t| >= 2 then t[1..|t| - 1] else t[1..]) else t
  }

  predicate EndsWithSlash(s: string) {
    s != "" && s[|s| - 1] == '/'
  }

  /** s without the slashes it ends with. */
  function Trim(s: string): (r: string)
    ensures r <= s && !EndsWithSlash(r) && forall i :: |r| <= i < |s| ==> s[i] == '/'
  {
    if EndsWithSlash(s) then Trim(s[..|s| - 1]) else s
  }

  // ---------------------------------------------------------------------------------------
  // What a configuration says
  // ---------------------------------------------------------------------------------------

  /** A location with its handler and its directives in textual order. */
  datatype Place = Place(path: string, handler: string, pairs: seq<(string, string)>)

  datatype Item = Port(value: int) | Location(place: Place)

  function TokenPairs(tokens: seq<string>): seq<(string, string)>
    requires |tokens| % 2 == 0
  {
    if tokens == [] then [] else [(tokens[0], Unquote(tokens[1]))] + TokenPairs(tokens[2..])
  }

  predicate EvenTokens(block: Config) {
    forall i :: 0 <= i < |block| ==> |block[i].tokens| % 2 == 0
  }

  function Pairs(block: Config): seq<(string, string)>
    requires EvenTokens(block)
  {
    if block == [] then [] else TokenPairs(block[0].tokens) + Pairs(block[1..])
  }

  /** The word at j can be read as the setting it names: a port is followed by a number that stoi
      accepts; a location by a path that is not empty and ends with at most one slash, and by a
      handler, and it has a block of directives with one parameter each. */
  predicate ReadableAt(s: Statement, j: nat)
    requires j + 1 < |s.tokens|
  {
    if s.tokens[j] == "port" then Stoi(s.tokens[j + 1]).Number?
    else if s.tokens[j] == "location" then
      var path := Unquote(s.tokens[j + 1]);
      j + 2 < |s.tokens| && s.Block? && EvenTokens(s.child) && path != "" && !EndsWithSlash(path[..|path| - 1])
    else true
  }

  predicate ReadableStatement(s: Statement) {
    forall j: nat :: j + 1 < |s.tokens| ==> ReadableAt(s, j)
  }

  function ItemsAt(s: Statement, j: nat): seq<Item>
    requires j + 1 < |s.tokens| && ReadableAt(s, j)
  {
    if s.tokens[j] == "port" then [Port(Stoi(s.tokens[j + 1]).n)]
    else if s.tokens[j] == "location" then [Location(Place(Unquote(s.tokens[j + 1]), s.tokens[j + 2], Pairs(s.child)))]
    else []
  }

  /** The settings of a statement from word j on: every word but the last may name one. */
  function StatementItems(s: Statement, j: nat): seq<Item>
    requires ReadableStatement(s)
    decreases |s.tokens| - j
  {
    if j + 1 >= |s.tokens| then [] else ItemsAt(s, j) + StatementItems(s, j + 1)
  }

  function Items(c: Config): seq<Item>
    requires forall i :: 0 <= i < |c| ==> ReadableStatement(c[i])
  {
    if c == [] then [] else StatementItems(c[0], 0) + Items(c[1..])
  }

  function LastPort(items: seq<Item>): int {
    if items == [] then -1
    else
      var n := |items| - 1;
      if items[n].Port? then items[n].value else LastPort(items[..n])
  }

  function Places(items: seq<Item>): seq<Place> {
    if items == [] then []
    else
      var n := |items| - 1;
      Places(items[..n]) + if items[n].Location? then [items[n].place] else []
  }

  /** No two places have the same path up to the slashes it ends with. */
  predicate DistinctPlaces(places: seq<Place>) {
    forall i, j :: 0 <= i < j < |places| ==> Trim(places[i].path) != Trim(places[j].path)
  }

  /** The value that the last of the pairs named k gives it. */
  function LastValue(pairs: seq<(string, string)>, k: string): Option<string> {
    if pairs == [] then None
    else
      var n := |pairs| - 1;
      if pairs[n].0 == k then Some(pairs[n].1) else LastValue(pairs[..n], k)
  }

  function Lookup(d: map<string, string>, k: string): Option<string> {
    if k in d then Some(d[k]) else None
  }

  /** Of several pairs with the same name the last one counts. */
  ghost predicate LastWins(d: map<string, string>, pairs: seq<(string, string)>) {
    forall k :: Lookup(d, k) == LastValue(pairs, k)
  }

  ghost predicate TabulatesPlace(info: ConfigInfo, p: Place) {
    && p.path in info.handlers && info.handlers[p.path] == p.handler
    && (p.path in info.directives <==> p.pairs != [])
    && (p.pairs != [] ==> LastWins(info.directives[p.path], p.pairs))
  }

  ghost function Paths(places: seq<Place>): set<string> {
    set i | 0 <= i < |places| :: places[i].path
  }

  ghost predicate OneEntryEach(info: ConfigInfo, places: seq<Place>) {
    && info.handlers.Keys == Paths(places) && |info.handlers| == |places|
    && info.directives.Keys <= info.handlers.Keys
  }

  ghost predicate EachTabulated(info: ConfigInfo, places: seq<Place>) {
    forall i :: 0 <= i < |places| ==> TabulatesPlace(info, places[i])
  }

  /** The tables hold exactly one entry for each place, with its own handler and directives; a
      place whose block has no directive has no entry in the second table. */
  ghost predicate Tabulates(info: ConfigInfo, port: int, places: seq<Place>) {
    info.port == port && OneEntryEach(info, places) && EachTabulated(info, places)
  }

  // ---------------------------------------------------------------------------------------
  // The extraction, one setting after the other
  // ---------------------------------------------------------------------------------------

  type Directives = map<string, map<string, string>>

  /** What the extraction has gathered, and the trimmed paths it has seen. */
  datatype Tables = Tables(info: ConfigInfo, seen: seq<string>)

  const NOTHING := Tables(ConfigInfo(-1, map[], map[]), [])

  function Put(d: Directives, path: string, k: string, v: string): Directives {
    d[path := (if path in d then d[path] else map[])[k := v]]
  }

  function PutAll(d: Directives, path: string, pairs: seq<(string, string)>): Directives
    decreases |pairs|
  {
    if pairs == [] then d else PutAll(Put(d, path, pairs[0].0, pairs[0].1), path, pairs[1..])
  }

  /** The tables with the entries of one more place. */
  function WithPlace(info: ConfigInfo, p: Place): ConfigInfo {
    ConfigInfo(info.port, info.handlers[p.path := p.handler], PutAll(info.directives, p.path, p.pairs))
  }

  /** None is the refusal of a path that has been seen. */
  function Absorb(t: Tables, item: Item): Option<Tables> {
    match item
    case Port(n) => Some(t.(info := t.info.(port := n)))
    case Location(p) =>
      if Trim(p.path) in t.seen then None
      else
        Some(Tables(WithPlace(t.info, p), t.seen + [Trim(p.path)]))
  }

  function AbsorbAll(t: Tables, items: seq<Item>): Option<Tables>
    decreases |items|
  {
    if items == [] then Some(t)
    else
      match Absorb(t, items[0])
      case None => None
      case Some(next) => AbsorbAll(next, items[1..])
  }

  lemma {:induction false} AbsorbAppend(t: Tables, a: seq<Item>, b: seq<Item>)
    ensures AbsorbAll(t, a + b) ==
      match AbsorbAll(t, a) { case None => None case Some(next) => AbsorbAll(next, b) }
    decreases |a|
  {
    if a == [] {
      assert a + b == b;
    } else {
      assert (a + b)[0] == a[0] && (a + b)[1..] == a[1..] + b;
      if Absorb(t, a[0]).Some? { AbsorbAppend(Absorb(t, a[0]).value, a[1..], b); }
    }
  }

  lemma {:induction false} PutAllAppend(d: Directives, path: string, a: seq<(string, string)>, b: seq<(string, string)>)
    ensures PutAll(d, path, a + b) == PutAll(PutAll(d, path, a), path, b)
    decreases |a|
  {
    if a == [] {
      assert a + b == b;
    } else {
      assert (a + b)[0] == a[0] && (a + b)[1..] == a[1..] + b;
      PutAllAppend(Put(d, path, a[0].0, a[0].1), path, a[1..], b);
    }
  }

  /** Putting pairs under a new path changes no other path, and the last pair of a name wins. */
  lemma {:induction false} PutAllMeaning(d: Directives, path: string, pairs: seq<(string, string)>)
    requires path !in d
    ensures var r := PutAll(d, path, pairs);
            && r.Keys == d.Keys + (if pairs == [] then {} else {path})
            && (forall p :: p in d ==> r[p] == d[p])
            && (pairs != [] ==> LastWins(r[path], pairs))
    decreases |pairs|
  {
    if pairs != [] {
      var n := |pairs| - 1;
      var (k, v) := pairs[n];
      var before := PutAll(d, path, pairs[..n]);
      PutAllMeaning(d, path, pairs[..n]);
      PutAllAppend(d, path, pairs[..n], [pairs[n]]);
      assert pairs[..n] + [pairs[n]] == pairs;
      assert PutAll(before, path, [pairs[n]]) == Put(before, path, k, v);
      var r := Put(before, path, k, v)[path];
      forall name ensures Lookup(r, name) == LastValue(pairs, name) {
        if n > 0 { assert Lookup(before[path], name) == LastValue(pairs[..n], name); }
      }
    }
  }

  ghost predicate Seen(seen: seq<string>, places: seq<Place>) {
    |seen| == |places| && forall i :: 0 <= i < |seen| ==> seen[i] == Trim(places[i].path)
  }

  lemma {:induction false} PathsAppend(places: seq<Place>, p: Place)
    ensures Paths(places + [p]) == Paths(places) + {p.path}
  {
    var all := places + [p];
    assert forall i :: 0 <= i < |places| ==> all[i] == places[i];
    assert all[|places|] == p;
  }

  lemma {:induction false} NotAmong(places: seq<Place>, path: string)
    requires forall i :: 0 <= i < |places| ==> Trim(places[i].path) != Trim(path)
    ensures path !in Paths(places) && forall i :: 0 <= i < |places| ==> places[i].path != path
  {
    hide Trim;
    forall i | 0 <= i < |places| ensures places[i].path != path {
      assert Trim(places[i].path) != Trim(path);
    }
  }

  lemma {:induction false} EntryAdded(info: ConfigInfo, next: ConfigInfo, places: seq<Place>, p: Place)
    requires OneEntryEach(info, places) && p.path !in Paths(places)
    requires next.handlers == info.handlers[p.path := p.handler]
    requires next.directives.Keys <= info.directives.Keys + {p.path}
    ensures OneEntryEach(next, places + [p])
  {
    PathsAppend(places, p);
    hide Paths;
    assert next.handlers.Keys == info.handlers.Keys + {p.path};
  }

  lemma {:induction false} PlacesKept(info: ConfigInfo, next: ConfigInfo, places: seq<Place>, p: Place)
    requires EachTabulated(info, places) && TabulatesPlace(next, p)
    requires forall i :: 0 <= i < |places| ==> places[i].path != p.path
    requires forall q :: q in info.handlers && q != p.path ==>
      q in next.handlers && next.handlers[q] == info.handlers[q]
    requires forall q :: q != p.path ==> (q in next.directives <==> q in info.directives)
    requires forall q :: q in info.directives && q != p.path ==> next.directives[q] == info.directives[q]
    ensures EachTabulated(next, places + [p])
  {
    hide LastWins;
    var all := places + [p];
    forall i | 0 <= i < |all| ensures TabulatesPlace(next, all[i]) {
      if i < |places| {
        assert all[i] == places[i] && TabulatesPlace(info, places[i]);
        KeepsPlace(info, next, places[i]);
      } else {
        assert all[i] == p;
      }
    }
  }

  lemma {:induction false} NewPlaceTabulates(info: ConfigInfo, p: Place)
    requires p.path !in info.directives
    ensures TabulatesPlace(WithPlace(info, p), p)
  {
    PutAllMeaning(info.directives, p.path, p.pairs);
    hide PutAll, LastWins;
  }

  lemma {:induction false} OldPlacesTabulate(info: ConfigInfo, places: seq<Place>, p: Place)
    requires EachTabulated(info, places) && p.path !in info.directives
    requires forall i :: 0 <= i < |places| ==> places[i].path != p.path
    ensures EachTabulated(WithPlace(info, p), places + [p])
  {
    PutAllMeaning(info.directives, p.path, p.pairs);
    NewPlaceTabulates(info, p);
    hide PutAll, LastWins, EachTabulated, TabulatesPlace;
    PlacesKept(info, WithPlace(info, p), places, p);
  }

  /** A new place gets its own entries and changes those of no other place. */
  lemma {:induction false} PlaceTabulates(info: ConfigInfo, port: int, places: seq<Place>, p: Place)
    requires Tabulates(info, port, places) && forall i :: 0 <= i < |places| ==> Trim(places[i].path) != Trim(p.path)
    ensures Tabulates(WithPlace(info, p), port, places + [p])
  {
    NotAmong(places, p.path);
    assert p.path !in info.directives;
    PutAllMeaning(info.directives, p.path, p.pairs);
    hide PutAll, LastWins, Trim, Paths, EachTabulated, OneEntryEach;
    OldPlacesTabulate(info, places, p);
    EntryAdded(info, WithPlace(info, p), places, p);
  }

  lemma {:induction false} KeepsPlace(info: ConfigInfo, next: ConfigInfo, p: Place)
    requires TabulatesPlace(info, p)
    requires p.path in next.handlers && next.handlers[p.path] == info.handlers[p.path]
    requires p.path in next.directives <==> p.path in info.directives
    requires p.path in info.directives ==> next.directives[p.path] == info.directives[p.path]
    ensures TabulatesPlace(next, p)
  {
  }

  /** The extraction refuses exactly the repeated locations, and tabulates everything else. */
  lemma {:induction false} AbsorbAllMeaning(items: seq<Item>)
    ensures var r := AbsorbAll(NOTHING, items);
            && (r.Some? <==> DistinctPlaces(Places(items)))
            && (r.Some? ==>
                  Tabulates(r.value.info, LastPort(items), Places(items)) && Seen(r.value.seen, Places(items)))
    decreases |items|
  {
    if items == [] {
      assert Places(items) == [] && Paths([]) == {};
    } else {
      var n := |items| - 1;
      var before, item := items[..n], items[n];
      assert items == before + [item];
      assert Places(items) == Places(before) + if item.Location? then [item.place] else [];
      assert LastPort(items) == if item.Port? then item.value else LastPort(before);
      AbsorbAllMeaning(before);
      hide AbsorbAll, Absorb, Places, LastPort, Tabulates, Seen, DistinctPlaces, Trim;
      AbsorbAppend(NOTHING, before, [item]);
      if AbsorbAll(NOTHING, before).Some? {
        AbsorbOne(AbsorbAll(NOTHING, before).value, LastPort(before), Places(before), item);
      }
      if item.Location? { DistinctAppend(Places(before), item.place); } else { assert Places(items) == Places(before); }
    }
  }

  lemma {:induction false} DistinctAppend(places: seq<Place>, p: Place)
    ensures DistinctPlaces(places + [p]) <==>
      DistinctPlaces(places) && forall i :: 0 <= i < |places| ==> Trim(places[i].path) != Trim(p.path)
  {
    var all := places + [p];
    hide Trim;
    assert forall i :: 0 <= i < |places| ==> all[i] == places[i];
    assert all[|places|] == p;
  }

  lemma {:induction false} AbsorbOne(t: Tables, port: int, places: seq<Place>, item: Item)
    requires Tabulates(t.info, port, places) && Seen(t.seen, places)
    ensures AbsorbAll(t, [item]) == Absorb(t, item)
    ensures item.Port? ==>
      Absorb(t, item).Some? && Tabulates(Absorb(t, item).value.info, item.value, places) &&
        Seen(Absorb(t, item).value.seen, places)
    ensures item.Location? ==>
      var isNew := forall i :: 0 <= i < |places| ==> Trim(places[i].path) != Trim(item.place.path);
      var r := Absorb(t, item);
      && (r.Some? <==> isNew)
      && (r.Some? ==> Tabulates(r.value.info, port, places + [item.place]) && Seen(r.value.seen, places + [item.place]))
  {
    assert [item][1..] == [];
    hide Trim, PutAll;
    if item.Location? && Absorb(t, item).Some? {
      assert forall i :: 0 <= i < |places| ==> t.seen[i] == Trim(places[i].path);
      PlaceTabulates(t.info, port, places, item.place);
    }
  }

  /** The settings determine the tables. */
  lemma {:induction false} TabulatesOnce(a: ConfigInfo, b: ConfigInfo, port: int, places: seq<Place>)
    requires Tabulates(a, port, places) && Tabulates(b, port, places)
    ensures a == b
  {
    hide LastWins;
    forall p | p in Paths(places)
      ensures a.handlers[p] == b.handlers[p] && (p in a.directives <==> p in b.directives)
      ensures p in a.directives ==> a.directives[p] == b.directives[p]
    {
      var i :| 0 <= i < |places| && places[i].path == p;
      assert TabulatesPlace(a, places[i]) && TabulatesPlace(b, places[i]);
      if p in a.directives { SameLookups(a.directives[p], b.directives[p], places[i].pairs); }
    }
    assert a.directives.Keys == b.directives.Keys;
  }

  lemma {:induction false} SameLookups(d: map<string, string>, e: map<string, string>, pairs: seq<(string, string)>)
    requires LastWins(d, pairs) && LastWins(e, pairs)
    ensures d == e
  {
    forall k ensures Lookup(d, k) == Lookup(e, k) {
      assert Lookup(d, k) == LastValue(pairs, k);
    }
    assert forall k :: k in d ==> Lookup(d, k) == Lookup(e, k);
    assert forall k :: k in e ==> Lookup(d, k) == Lookup(e, k);
  }

  // ---------------------------------------------------------------------------------------
  // The program's loops
  // ---------------------------------------------------------------------------------------

  class NginxConfigParser {
    var configInfo: ConfigInfo

    constructor ()
    {
      configInfo := ConfigInfo(0, map[], map[]);
    }

    /** Whether key, without the slashes it ends with, has been seen. */
    method HasKey(seenLocations: seq<string>, key: string) returns (found: bool)
      ensures found <==> Trim(key) in seenLocations
    {
      var k := key;
      while k != "" && k[|k| - 1] == '/'
        invariant Trim(k) == Trim(key)
        decreases |k|
      {
        k := k[..|k| - 1];
      }
      found := k in seenLocations;
    }

    /** The directives of one statement of a location's block. */
    method ReadTokens(tokens: seq<string>, location: string, d: Directives) returns (r: Directives)
      requires |tokens| % 2 == 0
      ensures r == PutAll(d, location, TokenPairs(tokens))
    {
      r := d;
      var m := 0;
      while m < |tokens|
        invariant m <= |tokens| && m % 2 == 0
        invariant PutAll(r, location, TokenPairs(tokens[m..])) == PutAll(d, location, TokenPairs(tokens))
      {
        assert tokens[m..][2..] == tokens[m + 2..];
        ghost var before := r;
        if location !in r {
          r := r[location := map[]];
        }
        r := r[location := r[location][tokens[m] := Unquote(tokens[m + 1])]];
        assert r == Put(before, location, tokens[m], Unquote(tokens[m + 1]));
        m := m + 2;
      }
      assert tokens[m..] == [];
    }

    /** The directives of one location's block. */
    method ReadDirectives(block: Config, location: string, d: Directives) returns (r: Directives)
      requires EvenTokens(block)
      ensures r == PutAll(d, location, Pairs(block))
    {
      r := d;
      for l := 0 to |block|
        invariant PutAll(r, location, Pairs(block[l..])) == PutAll(d, location, Pairs(block))
      {
        assert block[l..][1..] == block[l + 1..];
        PutAllAppend(r, location, TokenPairs(block[l].tokens), Pairs(block[l + 1..]));
        r := ReadTokens(block[l].tokens, location, r);
      }
      assert block[|block|..] == [];
    }

    /** A location: refused if its path has been seen, otherwise entered in the tables. */
    method ReadLocation(t: Tables, place: Place, block: Config) returns (r: Option<Tables>)
      requires place.path != "" && !EndsWithSlash(place.path[..|place.path| - 1])
      requires EvenTokens(block) && place.pairs == Pairs(block)
      ensures r == Absorb(t, Location(place))
    {
      var location := place.path;
      var repeated := HasKey(t.seen, location);
      if repeated {
        return None;
      }
      var handlers := t.info.handlers[location := place.handler];
      var directives := ReadDirectives(block, location, t.info.directives);
      var removeSlash := location;
      while removeSlash != "" && removeSlash[|removeSlash| - 1] == '/'
        invariant removeSlash == location || (removeSlash == location[..|location| - 1] && EndsWithSlash(location))
        decreases |removeSlash|
      {
        removeSlash := removeSlash[..|location| - 1];
      }
      assert removeSlash == Trim(location);
      return Some(Tables(ConfigInfo(t.info.port, handlers, directives), t.seen + [removeSlash]));
    }

    /** Accepts when the last port is in range and no location is repeated, and then stores exactly
        the tables of the configuration; otherwise it stores nothing. */
    method GetServerSettingsInner(config: Config) returns (ok: bool)
      requires forall i :: 0 <= i < |config| ==> ReadableStatement(config[i])
      modifies this
      ensures ok <==> 0 <= LastPort(Items(config)) <= 65353 && DistinctPlaces(Places(Items(config)))
      ensures ok ==> Tabulates(configInfo, LastPort(Items(config)), Places(Items(config)))
      ensures !ok ==> configInfo == old(configInfo)
    {
      AbsorbAllMeaning(Items(config));
      hide Tabulates, DistinctPlaces, Seen, Places, LastPort, Absorb, StatementItems, ReadableStatement;
      var t := NOTHING;
      for i := 0 to |config|
        invariant configInfo == old(configInfo)
        invariant AbsorbAll(t, Items(config[i..])) == AbsorbAll(NOTHING, Items(config))
      {
        assert config[i..][1..] == config[i + 1..];
        assert Items(config[i..]) == StatementItems(config[i], 0) + Items(config[i + 1..]);
        var r := ReadStatement(t, config[i], Items(config[i + 1..]));
        if r == None {
          return false;
        }
        t := r.value;
      }
      assert config[|config|..] == [];
      assert t.info.port == LastPort(Items(config)) by {
        TabulatesPort(t.info, LastPort(Items(config)), Places(Items(config)));
      }
      if t.info.port < 0 || t.info.port > MAX_PORT {
        return false;
      }
      configInfo := t.info;
      return true;
    }

    /** The words of one statement. */
    method ReadStatement(t: Tables, s: Statement, ghost rest: seq<Item>) returns (r: Option<Tables>)
      requires ReadableStatement(s)
      ensures AbsorbAll(t, StatementItems(s, 0) + rest) ==
        match r { case None => None case Some(next) => AbsorbAll(next, rest) }
    {
      hide Pairs, Stoi;
      var now := t;
      var tokens := s.tokens;
      for j := 0 to |tokens|
        invariant AbsorbAll(t, StatementItems(s, 0) + rest) == AbsorbAll(now, StatementItems(s, j) + rest)
      {
        if j < |tokens| - 1 {
          ghost var items := StatementItems(s, j + 1) + rest;
          ItemsStep(s, j, rest);
          if tokens[j] == "port" {
            var n := Stoi(tokens[j + 1]).n;
            AbsorbNext(now, Port(n), items);
            now := now.(info := now.info.(port := n));
          } else if tokens[j] == "location" {
            var place := Place(Unquote(tokens[j + 1]), tokens[j + 2], Pairs(s.child));
            AbsorbNext(now, Location(place), items);
            var next := ReadLocation(now, place, s.child);
            if next == None {
              return None;
            }
            now := next.value;
          }
        } else {
          assert StatementItems(s, j) == StatementItems(s, j + 1);
        }
      }
      assert StatementItems(s, |tokens|) + rest == rest;
      return Some(now);
    }
  }

  lemma {:induction false} ItemsStep(s: Statement, j: nat, rest: seq<Item>)
    requires ReadableStatement(s) && j + 1 < |s.tokens|
    ensures ReadableAt(s, j)
    ensures var items := StatementItems(s, j + 1) + rest;
            StatementItems(s, j) + rest ==
              if s.tokens[j] == "port" then [Port(Stoi(s.tokens[j + 1]).n)] + items
              else if s.tokens[j] == "location" then
                [Location(Place(Unquote(s.tokens[j + 1]), s.tokens[j + 2], Pairs(s.child)))] + items
              else items
  {
    assert ReadableAt(s, j);
    assert StatementItems(s, j) + rest == ItemsAt(s, j) + (StatementItems(s, j + 1) + rest);
  }

  lemma {:induction false} AbsorbNext(t: Tables, item: Item, rest: seq<Item>)
    ensures AbsorbAll(t, [item] + rest) ==
      match Absorb(t, item) { case None => None case Some(next) => AbsorbAll(next, rest) }
  {
    assert ([item] + rest)[1..] == rest;
  }

  lemma {:induction false} TabulatesPort(info: ConfigInfo, port: int, places: seq<Place>)
    requires Tabulates(info, port, places)
    ensures info.port == port
  {
  }
}
