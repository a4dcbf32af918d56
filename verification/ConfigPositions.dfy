/** What the settings tables say, by the positions of words in the parsed configuration. */
module ConfigPositions {
  import opened ConfigLexer
  import opened ConfigSyntax
  import opened ConfigSettings
  import opened ConfigMachine
  import opened Decimal
  import opened Options

  // ---------------------------------------------------------------------------------------
  // Quotes
  // ---------------------------------------------------------------------------------------

  /** The word t means the text v: it is v itself, which does not begin with a quote, or v between two
      quotes of one kind. */
  predicate Means(t: string, v: string) {
    || (t == v && t != "" && t[0] != '"' && t[0] != '\'')
    || t == "\"" + v + "\""
    || t == "'" + v + "'"
  }

  /** A word without its quotes is the text that it means, and no other. */
  lemma {:induction false} UnquoteExactly(t: string, v: string)
    requires IsWord(t)
    ensures Unquote(t) == v <==> Means(t, v)
  {
    if t[0] == '"' || t[0] == '\'' {
      assert IsQuoted(t) && t[..|t| - 1][0] == t[0];
      assert t == [t[0]] + t[1..|t| - 1] + [t[0]];
      if Means(t, v) { assert t[1..|t| - 1] == v; }
    }
  }

  // ---------------------------------------------------------------------------------------
  // Directives
  // ---------------------------------------------------------------------------------------

  /** The pair m of the statement l of a block has the name k. */
  predicate Names(block: Config, l: nat, m: nat, k: string) {
    l < |block| && 2 * m + 1 < |block[l].tokens| && block[l].tokens[2 * m] == k
  }

  predicate Later(l: nat, m: nat, l2: nat, m2: nat) {
    l < l2 || (l == l2 && m < m2)
  }

  ghost predicate IsLastNamed(block: Config, l: nat, m: nat, k: string) {
    Names(block, l, m, k) && forall l2: nat, m2: nat :: Names(block, l2, m2, k) ==> !Later(l, m, l2, m2)
  }

  lemma {:induction false} TokenPairsAt(tokens: seq<string>)
    requires |tokens| % 2 == 0
    ensures 2 * |TokenPairs(tokens)| == |tokens|
    ensures forall m :: 0 <= m < |TokenPairs(tokens)| ==>
      TokenPairs(tokens)[m] == (tokens[2 * m], Unquote(tokens[2 * m + 1]))
    decreases |tokens|
  {
    if tokens != [] {
      TokenPairsAt(tokens[2..]);
      hide Unquote;
      forall m | 0 < m < |TokenPairs(tokens)|
        ensures TokenPairs(tokens)[m] == (tokens[2 * m], Unquote(tokens[2 * m + 1]))
      {
        assert TokenPairs(tokens)[m] == TokenPairs(tokens[2..])[m - 1];
        assert tokens[2..][2 * (m - 1)] == tokens[2 * m] && tokens[2..][2 * (m - 1) + 1] == tokens[2 * m + 1];
      }
    }
  }

  lemma {:induction false} LastValueAppend(a: seq<(string, string)>, b: seq<(string, string)>, k: string)
    ensures LastValue(a + b, k) == if LastValue(b, k).Some? then LastValue(b, k) else LastValue(a, k)
    decreases |b|
  {
    if b == [] {
      assert a + b == a;
    } else {
      var n := |b| - 1;
      assert (a + b)[..|a| + n] == a + b[..n];
      LastValueAppend(a, b[..n], k);
    }
  }

  ghost predicate IsLastPair(pairs: seq<(string, string)>, m: nat, k: string) {
    m < |pairs| && pairs[m].0 == k && forall n :: m < n < |pairs| ==> pairs[n].0 != k
  }

  lemma {:induction false} LastValueIndex(pairs: seq<(string, string)>, k: string)
    ensures match LastValue(pairs, k)
            case None => forall m :: 0 <= m < |pairs| ==> pairs[m].0 != k
            case Some(v) => exists m: nat :: IsLastPair(pairs, m, k) && pairs[m].1 == v
    decreases |pairs|
  {
    if pairs != [] {
      var n := |pairs| - 1;
      if pairs[n].0 == k {
        assert IsLastPair(pairs, n, k);
      } else {
        LastValueIndex(pairs[..n], k);
        if LastValue(pairs[..n], k).Some? {
          var m: nat :| IsLastPair(pairs[..n], m, k) && pairs[..n][m].1 == LastValue(pairs[..n], k).value;
          assert IsLastPair(pairs, m, k);
        }
      }
    }
  }

  lemma {:induction false} NamesTail(block: Config, l: nat, m: nat, k: string)
    requires block != []
    ensures Names(block, l + 1, m, k) <==> Names(block[1..], l, m, k)
  {
  }

  lemma {:induction false} LastInFirst(block: Config, k: string) returns (m: nat)
    requires EvenTokens(block) && block != [] && LastValue(TokenPairs(block[0].tokens), k).Some?
    requires forall l: nat, n: nat :: !Names(block[1..], l, n, k)
    ensures IsLastNamed(block, 0, m, k)
    ensures Unquote(block[0].tokens[2 * m + 1]) == LastValue(TokenPairs(block[0].tokens), k).value
  {
    var pairs := TokenPairs(block[0].tokens);
    TokenPairsAt(block[0].tokens);
    LastValueIndex(pairs, k);
    hide TokenPairs, LastValue, Unquote;
    m :| IsLastPair(pairs, m, k) && pairs[m].1 == LastValue(pairs, k).value;
    forall l2: nat, m2: nat | Names(block, l2, m2, k) ensures !Later(0, m, l2, m2) {
      if l2 > 0 {
        NamesTail(block, l2 - 1, m2, k);
      } else {
        assert pairs[m2].0 == k;
      }
    }
  }

  lemma {:induction false} LastInRest(block: Config, l: nat, m: nat, k: string)
    requires block != [] && IsLastNamed(block[1..], l, m, k)
    ensures IsLastNamed(block, l + 1, m, k)
  {
    NamesTail(block, l, m, k);
    forall l2: nat, m2: nat | Names(block, l2, m2, k) ensures !Later(l + 1, m, l2, m2) {
      if l2 > 0 { NamesTail(block, l2 - 1, m2, k); }
    }
  }

  lemma {:induction false} NotNamed(block: Config, k: string)
    requires EvenTokens(block) && block != [] && LastValue(TokenPairs(block[0].tokens), k) == None
    requires forall l: nat, m: nat :: !Names(block[1..], l, m, k)
    ensures forall l: nat, m: nat :: !Names(block, l, m, k)
  {
    TokenPairsAt(block[0].tokens);
    LastValueIndex(TokenPairs(block[0].tokens), k);
    hide TokenPairs, LastValue, Unquote;
    forall l: nat, m: nat ensures !Names(block, l, m, k) {
      if l > 0 {
        NamesTail(block, l - 1, m, k);
      } else {
        assert m < |TokenPairs(block[0].tokens)| ==> TokenPairs(block[0].tokens)[m].0 == block[0].tokens[2 * m];
      }
    }
  }

  /** What the block says for the name k: the word after its last occurrence, without quotes, and nothing
      where it does not occur. */
  ghost predicate Says(block: Config, k: string, value: Option<string>) {
    match value
    case None => forall l: nat, m: nat :: !Names(block, l, m, k)
    case Some(v) =>
      exists l: nat, m: nat :: IsLastNamed(block, l, m, k) && Means(block[l].tokens[2 * m + 1], v)
  }

  lemma {:induction false} WordAt(c: Config, i: nat, j: nat)
    requires AllWords(c) && i < |c| && j < |c[i].tokens|
    ensures IsWord(c[i].tokens[j])
    decreases i
  {
    if i > 0 { WordAt(c[1..], i - 1, j); }
  }

  lemma {:induction false} ChildWords(c: Config, i: nat)
    requires AllWords(c) && i < |c| && c[i].Block?
    ensures AllWords(c[i].child)
    decreases i
  {
    if i > 0 { ChildWords(c[1..], i - 1); }
  }

  lemma {:induction false} LastValueByPosition(block: Config, k: string)
    requires EvenTokens(block) && AllWords(block)
    ensures Says(block, k, LastValue(Pairs(block), k))
    decreases |block|
  {
    hide Means;
    if block != [] {
      var (first, rest) := (TokenPairs(block[0].tokens), block[1..]);
      LastValueByPosition(rest, k);
      LastValueAppend(first, Pairs(rest), k);
      assert Pairs(block) == first + Pairs(rest);
      hide TokenPairs, LastValue, Unquote, IsLastNamed, Names, Pairs;
      if LastValue(Pairs(rest), k).Some? {
        var v := LastValue(Pairs(rest), k).value;
        var l: nat, m: nat :| IsLastNamed(rest, l, m, k) && Means(rest[l].tokens[2 * m + 1], v);
        LastInRest(block, l, m, k);
        assert block[l + 1] == rest[l];
      } else if LastValue(first, k).Some? {
        var m := LastInFirst(block, k);
        WordAt(block, 0, 2 * m + 1);
        UnquoteExactly(block[0].tokens[2 * m + 1], LastValue(first, k).value);
      } else {
        NotNamed(block, k);
      }
    }
  }

  // ---------------------------------------------------------------------------------------
  // Ports and locations
  // ---------------------------------------------------------------------------------------

  /** The word j of the statement i is key, and another word follows. */
  predicate IsSetting(c: Config, i: nat, j: nat, key: string) {
    i < |c| && j + 1 < |c[i].tokens| && c[i].tokens[j] == key
  }

  predicate AllReadable(c: Config) {
    forall i :: 0 <= i < |c| ==> ReadableStatement(c[i])
  }

  lemma {:induction false} SettingReadable(c: Config, i: nat, j: nat)
    requires AllReadable(c) && i < |c| && j + 1 < |c[i].tokens|
    ensures ReadableAt(c[i], j)
  {
  }

  /** The place that a location statement names. */
  function PlaceAt(c: Config, i: nat, j: nat): Place
    requires AllReadable(c) && IsSetting(c, i, j, "location")
  {
    SettingReadable(c, i, j);
    Place(Unquote(c[i].tokens[j + 1]), c[i].tokens[j + 2], Pairs(c[i].child))
  }

  function PortAt(c: Config, i: nat, j: nat): int
    requires AllReadable(c) && IsSetting(c, i, j, "port")
  {
    SettingReadable(c, i, j);
    Stoi(c[i].tokens[j + 1]).n
  }

  /** The settings of one key from a position on, in textual order. */
  ghost function Found(c: Config, i: nat, j: nat, key: string): (r: seq<(nat, nat)>)
    ensures forall x :: 0 <= x < |r| ==> IsSetting(c, r[x].0, r[x].1, key)
    decreases |c| - i, if i < |c| then |c[i].tokens| - j else 0
  {
    if i >= |c| then []
    else if j + 1 >= |c[i].tokens| then Found(c, i + 1, 0, key)
    else if c[i].tokens[j] == key then [(i, j)] + Found(c, i, j + 1, key)
    else Found(c, i, j + 1, key)
  }

  /** The positions r are those of the settings of a key from (i, j) on, each once, in order. */
  ghost predicate Lists(c: Config, r: seq<(nat, nat)>, i: nat, j: nat, key: string) {
    && (forall x :: 0 <= x < |r| ==> IsSetting(c, r[x].0, r[x].1, key) && !Later(r[x].0, r[x].1, i, j))
    && (forall x, y :: 0 <= x < y < |r| ==> Later(r[x].0, r[x].1, r[y].0, r[y].1))
    && (forall a: nat, b: nat :: IsSetting(c, a, b, key) && !Later(a, b, i, j) ==> (a, b) in r)
  }

  lemma {:induction false} ListsNextStatement(c: Config, r: seq<(nat, nat)>, i: nat, j: nat, key: string)
    requires i < |c| && j + 1 >= |c[i].tokens| && Lists(c, r, i + 1, 0, key)
    ensures Lists(c, r, i, j, key)
  {
    forall a: nat, b: nat | IsSetting(c, a, b, key) && !Later(a, b, i, j) ensures (a, b) in r {
      assert !Later(a, b, i + 1, 0);
    }
    assert forall x :: 0 <= x < |r| ==> !Later(r[x].0, r[x].1, i + 1, 0);
  }

  lemma {:induction false} ListsSkip(c: Config, r: seq<(nat, nat)>, i: nat, j: nat, key: string)
    requires Lists(c, r, i, j + 1, key) && !IsSetting(c, i, j, key)
    ensures Lists(c, r, i, j, key)
  {
    forall a: nat, b: nat | IsSetting(c, a, b, key) && !Later(a, b, i, j) ensures (a, b) in r {
      assert (a, b) != (i, j) && !Later(a, b, i, j + 1);
    }
    assert forall x :: 0 <= x < |r| ==> !Later(r[x].0, r[x].1, i, j + 1);
  }

  lemma {:induction false} ListsFirst(c: Config, r: seq<(nat, nat)>, i: nat, j: nat, key: string)
    requires Lists(c, r, i, j + 1, key) && IsSetting(c, i, j, key)
    ensures Lists(c, [(i, j)] + r, i, j, key)
  {
    var all := [(i, j)] + r;
    forall a: nat, b: nat | IsSetting(c, a, b, key) && !Later(a, b, i, j) ensures (a, b) in all {
      assert (a, b) == (i, j) || !Later(a, b, i, j + 1);
    }
    assert all[0] == (i, j);
    assert forall x :: 0 < x < |all| ==> all[x] == r[x - 1] && !Later(all[x].0, all[x].1, i, j + 1);
    forall x, y | 0 <= x < y < |all| ensures Later(all[x].0, all[x].1, all[y].0, all[y].1) {
      if x > 0 { assert Later(r[x - 1].0, r[x - 1].1, r[y - 1].0, r[y - 1].1); }
    }
  }

  lemma {:induction false} FoundExactly(c: Config, i: nat, j: nat, key: string)
    ensures Lists(c, Found(c, i, j, key), i, j, key)
    decreases |c| - i, if i < |c| then |c[i].tokens| - j else 0
  {
    if i < |c| {
      if j + 1 >= |c[i].tokens| {
        FoundExactly(c, i + 1, 0, key);
        hide Lists;
        ListsNextStatement(c, Found(c, i + 1, 0, key), i, j, key);
      } else {
        FoundExactly(c, i, j + 1, key);
        hide Lists;
        if c[i].tokens[j] == key {
          ListsFirst(c, Found(c, i, j + 1, key), i, j, key);
        } else {
          ListsSkip(c, Found(c, i, j + 1, key), i, j, key);
        }
      }
    }
  }

  /** The items of the configuration from a position on. */
  ghost function ItemsFrom(c: Config, i: nat, j: nat): seq<Item>
    requires AllReadable(c) && i <= |c|
  {
    if i == |c| then [] else StatementItems(c[i], j) + Items(c[i + 1..])
  }

  lemma {:induction false} ItemsEnd(c: Config, i: nat, j: nat)
    requires AllReadable(c) && i < |c| && j + 1 >= |c[i].tokens|
    ensures ItemsFrom(c, i, j) == ItemsFrom(c, i + 1, 0)
  {
    hide ItemsAt, ReadableAt;
    var rest := c[i + 1..];
    assert StatementItems(c[i], j) == [];
    if rest != [] { assert rest[0] == c[i + 1] && rest[1..] == c[i + 2..]; }
  }

  lemma {:induction false} ItemsNext(c: Config, i: nat, j: nat)
    requires AllReadable(c) && i < |c| && j + 1 < |c[i].tokens|
    ensures ReadableAt(c[i], j) && ItemsFrom(c, i, j) == ItemsAt(c[i], j) + ItemsFrom(c, i, j + 1)
  {
    SettingReadable(c, i, j);
    hide Items, ItemsAt, ReadableAt;
    assert StatementItems(c[i], j) == ItemsAt(c[i], j) + StatementItems(c[i], j + 1);
  }

  lemma {:induction false} PlacesAppend(a: seq<Item>, b: seq<Item>)
    ensures Places(a + b) == Places(a) + Places(b)
    decreases |b|
  {
    if b == [] {
      assert a + b == a;
    } else {
      var n := |b| - 1;
      assert (a + b)[..|a| + n] == a + b[..n] && (a + b)[|a| + n] == b[n];
      PlacesAppend(a, b[..n]);
    }
  }

  lemma {:induction false} PlacesOfOne(item: Item)
    ensures Places([item]) == if item.Location? then [item.place] else []
  {
    assert [item][..0] == [];
  }

  ghost predicate HasPort(items: seq<Item>) {
    exists x :: 0 <= x < |items| && items[x].Port?
  }

  lemma {:induction false} LastPortAppend(a: seq<Item>, b: seq<Item>)
    ensures LastPort(a + b) == if HasPort(b) then LastPort(b) else LastPort(a)
    decreases |b|
  {
    if b == [] {
      assert a + b == a;
    } else {
      var n := |b| - 1;
      assert (a + b)[..|a| + n] == a + b[..n] && (a + b)[|a| + n] == b[n];
      LastPortAppend(a, b[..n]);
      assert HasPort(b) <==> b[n].Port? || HasPort(b[..n]) by {
        if x :| 0 <= x < n && b[x].Port? { assert b[..n][x].Port?; }
      }
    }
  }

  ghost predicate ArePlaces(p: seq<Place>, c: Config, f: seq<(nat, nat)>)
    requires AllReadable(c)
  {
    |p| == |f| &&
    forall x :: 0 <= x < |p| ==>
      IsSetting(c, f[x].0, f[x].1, "location") && p[x] == PlaceAt(c, f[x].0, f[x].1)
  }

  lemma {:induction false} ArePlacesFirst(p: seq<Place>, c: Config, f: seq<(nat, nat)>, i: nat, j: nat)
    requires AllReadable(c) && ArePlaces(p, c, f) && IsSetting(c, i, j, "location")
    ensures ArePlaces([PlaceAt(c, i, j)] + p, c, [(i, j)] + f)
  {
    hide PlaceAt, AllReadable;
  }

  /** The places are those of the location statements, in order. */
  lemma {:induction false} PlacesAreFound(c: Config, i: nat, j: nat)
    requires AllReadable(c) && i <= |c|
    ensures ArePlaces(Places(ItemsFrom(c, i, j)), c, Found(c, i, j, "location"))
    decreases |c| - i, if i < |c| then |c[i].tokens| - j else 0
  {
    hide AllReadable, Places;
    if i == |c| {
      NoPlaces();
    } else if j + 1 >= |c[i].tokens| {
      ItemsEnd(c, i, j);
      hide ItemsFrom;
      PlacesAreFound(c, i + 1, 0);
    } else {
      ItemsNext(c, i, j);
      PlacesAt(c, i, j);
      PlacesAppend(ItemsAt(c[i], j), ItemsFrom(c, i, j + 1));
      PlacesAreFound(c, i, j + 1);
      hide ItemsFrom, ItemsAt, ArePlaces, PlaceAt, ReadableAt;
      var (places, found) := (Places(ItemsFrom(c, i, j + 1)), Found(c, i, j + 1, "location"));
      if c[i].tokens[j] == "location" {
        ArePlacesFirst(places, c, found, i, j);
      } else {
        assert [] + places == places;
      }
    }
  }

  lemma {:induction false} NoPlaces()
    ensures Places([]) == []
  {
  }

  lemma {:induction false} PlacesAt(c: Config, i: nat, j: nat)
    requires AllReadable(c) && i < |c| && j + 1 < |c[i].tokens|
    ensures ReadableAt(c[i], j)
    ensures Places(ItemsAt(c[i], j)) == if c[i].tokens[j] == "location" then [PlaceAt(c, i, j)] else []
  {
    SettingReadable(c, i, j);
    hide Places, Pairs, Unquote, AllReadable;
    NoPlaces();
    var items := ItemsAt(c[i], j);
    if items != [] { PlacesOfOne(items[0]); }
  }

  /** The port is the number after the last word "port". */
  lemma {:induction false} PortIsFound(c: Config, i: nat, j: nat)
    requires AllReadable(c) && i <= |c|
    ensures var (items, f) := (ItemsFrom(c, i, j), Found(c, i, j, "port"));
            && (HasPort(items) <==> f != [])
            && LastPort(items) == if f == [] then -1 else PortAt(c, f[|f| - 1].0, f[|f| - 1].1)
    decreases |c| - i, if i < |c| then |c[i].tokens| - j else 0
  {
    hide AllReadable, LastPort, HasPort, Pairs, Unquote, Stoi;
    if i == |c| {
      NoPort();
    } else if j + 1 >= |c[i].tokens| {
      ItemsEnd(c, i, j);
      hide ItemsFrom;
      PortIsFound(c, i + 1, 0);
    } else {
      ItemsNext(c, i, j);
      hide ItemsFrom;
      PortIsFound(c, i, j + 1);
      PortAtItems(c, i, j);
      LastPortAppend(ItemsAt(c[i], j), ItemsFrom(c, i, j + 1));
      HasPortAppend(ItemsAt(c[i], j), ItemsFrom(c, i, j + 1));
    }
  }

  lemma {:induction false} NoPort()
    ensures LastPort([]) == -1 && !HasPort([])
  {
  }

  lemma {:induction false} HasPortAppend(a: seq<Item>, b: seq<Item>)
    ensures HasPort(a + b) <==> HasPort(a) || HasPort(b)
  {
    if x :| 0 <= x < |a| && a[x].Port? { assert (a + b)[x].Port?; }
    if x :| 0 <= x < |b| && b[x].Port? { assert (a + b)[|a| + x].Port?; }
  }

  lemma {:induction false} PortAtItems(c: Config, i: nat, j: nat)
    requires AllReadable(c) && i < |c| && j + 1 < |c[i].tokens|
    ensures ReadableAt(c[i], j)
    ensures var (items, isPort) := (ItemsAt(c[i], j), c[i].tokens[j] == "port");
            (HasPort(items) <==> isPort) && LastPort(items) == if isPort then PortAt(c, i, j) else -1
  {
    SettingReadable(c, i, j);
    hide Pairs, Unquote, AllReadable;
    var items := ItemsAt(c[i], j);
    assert items != [] ==> items[..0] == [];
    assert items != [] && items[0].Port? ==> HasPort(items);
  }

  // ---------------------------------------------------------------------------------------
  // The settings of a configuration
  // ---------------------------------------------------------------------------------------

  lemma {:induction false} AllItems(c: Config)
    requires AllReadable(c)
    ensures ItemsFrom(c, 0, 0) == Items(c)
  {
  }

  ghost predicate IsLastSetting(c: Config, i: nat, j: nat, key: string) {
    IsSetting(c, i, j, key) && forall a: nat, b: nat :: IsSetting(c, a, b, key) ==> !Later(i, j, a, b)
  }

  /** The port is the number after the last "port" that a word follows, and -1 if there is none. */
  lemma {:induction false} PortByPosition(c: Config)
    requires AllReadable(c)
    ensures (forall i: nat, j: nat :: !IsSetting(c, i, j, "port")) ==> LastPort(Items(c)) == -1
    ensures forall i: nat, j: nat :: IsLastSetting(c, i, j, "port") ==>
      LastPort(Items(c)) == PortAt(c, i, j)
  {
    AllItems(c);
    PortIsFound(c, 0, 0);
    FoundExactly(c, 0, 0, "port");
    var f := Found(c, 0, 0, "port");
    hide Items, ItemsFrom, LastPort, Found, Stoi, AllReadable;
    forall i: nat, j: nat | IsLastSetting(c, i, j, "port") ensures LastPort(Items(c)) == PortAt(c, i, j) {
      assert (i, j) in f;
      var last := f[|f| - 1];
      assert IsSetting(c, last.0, last.1, "port") && !Later(i, j, last.0, last.1);
      var x :| 0 <= x < |f| && f[x] == (i, j);
      assert x == |f| - 1;
    }
  }

  /** The places are exactly those that location statements name. */
  lemma {:induction false} PlacesByPosition(c: Config)
    requires AllReadable(c)
    ensures forall i: nat, j: nat :: IsSetting(c, i, j, "location") ==> PlaceAt(c, i, j) in Places(Items(c))
    ensures forall p :: p in Places(Items(c)) ==>
      exists i: nat, j: nat :: IsSetting(c, i, j, "location") && p == PlaceAt(c, i, j)
  {
    AllItems(c);
    PlacesAreFound(c, 0, 0);
    FoundExactly(c, 0, 0, "location");
    var f := Found(c, 0, 0, "location");
    hide Items, ItemsFrom, Places, Found, AllReadable, PlaceAt;
    forall i: nat, j: nat | IsSetting(c, i, j, "location") ensures PlaceAt(c, i, j) in Places(Items(c)) {
      assert (i, j) in f;
      var x :| 0 <= x < |f| && f[x] == (i, j);
      assert Places(Items(c))[x] == PlaceAt(c, i, j);
    }
    forall p | p in Places(Items(c))
      ensures exists i: nat, j: nat :: IsSetting(c, i, j, "location") && p == PlaceAt(c, i, j)
    {
      var x :| 0 <= x < |f| && Places(Items(c))[x] == p;
      assert IsSetting(c, f[x].0, f[x].1, "location");
    }
  }

  /** No two location statements name the same path, up to the slashes at its end. */
  ghost predicate DistinctLocations(c: Config)
    requires AllReadable(c)
  {
    forall i: nat, j: nat, a: nat, b: nat ::
      IsSetting(c, i, j, "location") && IsSetting(c, a, b, "location") && Later(i, j, a, b) ==>
        Trim(PlaceAt(c, i, j).path) != Trim(PlaceAt(c, a, b).path)
  }

  lemma {:induction false} DistinctFound(c: Config, places: seq<Place>, f: seq<(nat, nat)>)
    requires AllReadable(c) && ArePlaces(places, c, f) && Lists(c, f, 0, 0, "location") && DistinctPlaces(places)
    ensures DistinctLocations(c)
  {
    hide AllReadable, PlaceAt, Trim;
    forall i: nat, j: nat, a: nat, b: nat |
      IsSetting(c, i, j, "location") && IsSetting(c, a, b, "location") && Later(i, j, a, b)
      ensures Trim(PlaceAt(c, i, j).path) != Trim(PlaceAt(c, a, b).path)
    {
      var x := IndexOf(c, f, i, j);
      var y := IndexOf(c, f, a, b);
      assert x < y;
      assert places[x] == PlaceAt(c, i, j) && places[y] == PlaceAt(c, a, b);
    }
  }

  lemma {:induction false} IndexOf(c: Config, f: seq<(nat, nat)>, i: nat, j: nat) returns (x: nat)
    requires Lists(c, f, 0, 0, "location") && IsSetting(c, i, j, "location")
    ensures x < |f| && f[x] == (i, j)
  {
    assert !Later(i, j, 0, 0);
    assert (i, j) in f;
    x :| 0 <= x < |f| && f[x] == (i, j);
  }

  lemma {:induction false} FoundDistinct(c: Config, places: seq<Place>, f: seq<(nat, nat)>)
    requires AllReadable(c) && ArePlaces(places, c, f) && Lists(c, f, 0, 0, "location") && DistinctLocations(c)
    ensures DistinctPlaces(places)
  {
    hide AllReadable, PlaceAt, Trim;
    forall x, y | 0 <= x < y < |places| ensures Trim(places[x].path) != Trim(places[y].path) {
      assert Later(f[x].0, f[x].1, f[y].0, f[y].1);
    }
  }

  lemma {:induction false} DistinctByPosition(c: Config)
    requires AllReadable(c)
    ensures DistinctPlaces(Places(Items(c))) <==> DistinctLocations(c)
  {
    AllItems(c);
    PlacesAreFound(c, 0, 0);
    FoundExactly(c, 0, 0, "location");
    hide *;
    if DistinctPlaces(Places(Items(c))) { DistinctFound(c, Places(Items(c)), Found(c, 0, 0, "location")); }
    if DistinctLocations(c) { FoundDistinct(c, Places(Items(c)), Found(c, 0, 0, "location")); }
  }

  /** What the tables hold for a name in a location's block. */
  function Stored(info: ConfigInfo, path: string, k: string): Option<string> {
    if path in info.directives then Lookup(info.directives[path], k) else None
  }

  /** The tables have the path after the word "location", with the next word as its handler, and every
      name with what the block says for it. */
  ghost predicate IsStored(info: ConfigInfo, c: Config, i: nat, j: nat, path: string)
    requires IsSetting(c, i, j, "location") && AllReadable(c)
  {
    SettingReadable(c, i, j);
    && Means(c[i].tokens[j + 1], path)
    && path in info.handlers && info.handlers[path] == c[i].tokens[j + 2]
    && forall k :: Says(c[i].child, k, Stored(info, path, k))
  }

  lemma {:induction false} StoredLocation(info: ConfigInfo, c: Config, i: nat, j: nat)
    requires AllReadable(c) && AllWords(c) && IsSetting(c, i, j, "location")
    requires TabulatesPlace(info, PlaceAt(c, i, j))
    ensures IsStored(info, c, i, j, PlaceAt(c, i, j).path)
  {
    SettingReadable(c, i, j);
    WordAt(c, i, j + 1);
    ChildWords(c, i);
    var p := PlaceAt(c, i, j);
    UnquoteExactly(c[i].tokens[j + 1], p.path);
    hide AllReadable, AllWords, Says, Means, Unquote;
    forall k ensures Says(c[i].child, k, Stored(info, p.path, k)) {
      LastValueByPosition(c[i].child, k);
      if p.pairs == [] {
        assert LastValue(p.pairs, k) == None;
      } else {
        assert Lookup(info.directives[p.path], k) == LastValue(p.pairs, k);
      }
    }
  }

  /** From an accepted text: every location statement is stored, and the tables have no other path. */
  lemma {:induction false} TablesByPosition(text: string, info: ConfigInfo)
    requires Parse(text).Accepted? && AllReadable(Parse(text).config)
    requires var c := Parse(text).config; Tabulates(info, LastPort(Items(c)), Places(Items(c)))
    ensures var c := Parse(text).config;
            && (forall i: nat, j: nat :: IsSetting(c, i, j, "location") ==>
                  exists path :: IsStored(info, c, i, j, path))
            && (forall path :: path in info.handlers ==>
                  exists i: nat, j: nat :: IsSetting(c, i, j, "location") && IsStored(info, c, i, j, path))
  {
    AcceptedWords(text);
    hide Parse, AllReadable, AllWords, WellFormed, Tabulates, IsStored;
    var c := Parse(text).config;
    forall i: nat, j: nat | IsSetting(c, i, j, "location") ensures exists path :: IsStored(info, c, i, j, path) {
      LocationTabulated(info, c, i, j);
    }
    forall path | path in info.handlers
      ensures exists i: nat, j: nat :: IsSetting(c, i, j, "location") && IsStored(info, c, i, j, path)
    {
      var i, j := PathLocated(info, c, path);
    }
  }

  lemma {:induction false} LocationTabulated(info: ConfigInfo, c: Config, i: nat, j: nat)
    requires AllReadable(c) && AllWords(c) && IsSetting(c, i, j, "location")
    requires Tabulates(info, LastPort(Items(c)), Places(Items(c)))
    ensures IsStored(info, c, i, j, PlaceAt(c, i, j).path)
  {
    PlacesByPosition(c);
    hide AllReadable, AllWords, Items, Places, LastPort, PlaceAt, IsStored, TabulatesPlace;
    var places := Places(Items(c));
    assert PlaceAt(c, i, j) in places;
    var x :| 0 <= x < |places| && places[x] == PlaceAt(c, i, j);
    assert TabulatesPlace(info, places[x]);
    StoredLocation(info, c, i, j);
  }

  lemma {:induction false} PathLocated(info: ConfigInfo, c: Config, path: string) returns (i: nat, j: nat)
    requires AllReadable(c) && AllWords(c) && path in info.handlers
    requires Tabulates(info, LastPort(Items(c)), Places(Items(c)))
    ensures IsSetting(c, i, j, "location") && IsStored(info, c, i, j, path)
  {
    PlacesByPosition(c);
    var places := Places(Items(c));
    assert path in Paths(places);
    var x :| 0 <= x < |places| && places[x].path == path;
    hide AllReadable, AllWords, Items, Places, LastPort, PlaceAt, IsStored, Tabulates;
    assert places[x] in places;
    i, j :| IsSetting(c, i, j, "location") && places[x] == PlaceAt(c, i, j);
    LocationTabulated(info, c, i, j);
  }
}
