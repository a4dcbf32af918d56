/** The answers of the CRUD service as a client reads them. */
module CrudAnswers {
  import opened CrudHandler
  import opened CrudHistory
  import opened CrudStore
  import opened CrudUrl
  import opened Decimal
  import opened FreshIds
  import opened Options

  // ---------------------------------------------------------------------------------------
  // Status and content
  // ---------------------------------------------------------------------------------------

  /** Every answer, number by number and word by word; what a list and a created id look like is said
      below. */
  lemma {:induction false} AnswerExactly(canon: Canon, store: Store, req: Request, path: string, next: Store,
                                         res: Response)
    requires Answered(canon, store, req, path, next, res)
    ensures
      match Extract(path)
      case NoMatch => res == Response(400, "text/plain", "Invalid request format for CRUD API")
      case Overflow => false
      case Elements(entity, id) =>
        match req.verb
        case Get =>
          if id == 0 then res.status == 200 && res.contentType == "application/json"
          else if req.ok && (entity, id) in store then res == Response(200, "application/json", store[(entity, id)])
          else res == Response(404, "text/plain", "404 File Not Found")
        case Post =>
          if id != 0 then res == Response(400, "text/plain", "POST requests cannot specify an entity ID")
          else if canon(req.body) == None then res == Response(400, "text/plain", "")
          else if !req.ok then res == Response(500, "text/plain", "500 Internal Server Error")
          else res.status == 200 && res.contentType == "application/json"
        case Put =>
          if id == 0 then res == Response(400, "text/plain", "PUT requests must specify an entity ID")
          else if canon(req.body) == None then res == Response(400, "text/plain", "")
          else if !req.ok then res == Response(500, "text/plain", "500 Internal Server Error")
          else res == Response(200, "text/plain", "404 Not Found")
        case Delete =>
          if id == 0 then res == Response(400, "text/plain", "DELETE requests must specify an entity ID")
          else if (entity, id) in store then res == Response(200, "text/plain", "404 Not Found")
          else res == Response(404, "text/plain", "404 File Not Found")
        case OtherVerb(name) => res == Response(405, "text/plain", "[" + name + "] Method Not Allowed")
  {
    hide Extract, NextId, ToString, ListBody, IdBody;
  }

  /** The answer to a creation carries the number of the entry that it has made. */
  lemma {:induction false} CreatedIdRead(canon: Canon, store: Store, req: Request, path: string, next: Store,
                                         res: Response)
    returns (entity: string, id: nat)
    requires Answered(canon, store, req, path, next, res) && req.verb == Post && res.status == 200
    ensures |res.body| > 8 && res.body[..7] == "{\"id\": " && res.body[|res.body| - 1] == '}'
    ensures Stoi(res.body[7..|res.body| - 1]) == Number(id)
    ensures (entity, id) !in store && canon(req.body).Some? && next == store[(entity, id) := canon(req.body).value]
  {
    entity, id := PostAddsOne(canon, store, req, path, next, res);
    assert id <= INT_MAX by {
      var e := Extract(path).entity;
      assert next == store[(e, NextId(IdsOf(store, e))) := canon(req.body).value];
      assert (entity, id) in next && (entity, id) !in store;
    }
    StoiToString(id);
    hide Answered, Stoi;
    assert res.body[7..|res.body| - 1] == ToString(id);
  }

  // ---------------------------------------------------------------------------------------
  // Reading a list
  // ---------------------------------------------------------------------------------------

  function FirstComma(s: string): (k: nat)
    ensures k <= |s| && (forall i :: 0 <= i < k ==> s[i] != ',') && (k < |s| ==> s[k] == ',')
  {
    if s == "" || s[0] == ',' then 0 else 1 + FirstComma(s[1..])
  }

  /** The parts of s between its commas. */
  function Fields(s: string): seq<string>
    decreases |s|
  {
    var k := FirstComma(s);
    if k == |s| then [s] else [s[..k]] + Fields(s[k + 1..])
  }

  /** The numbers that the parts are, if all of them are. */
  function Numbers(fields: seq<string>): Option<seq<int>> {
    if fields == [] then Some([])
    else
      match (Stoi(fields[0]), Numbers(fields[1..]))
      case (Number(n), Some(rest)) => Some([n] + rest)
      case _ => None
  }

  /** A list in brackets, read as numbers. */
  function ReadList(s: string): Option<seq<int>> {
    if |s| < 2 || s[0] != '[' || s[|s| - 1] != ']' then None
    else if |s| == 2 then Some([])
    else Numbers(Fields(s[1..|s| - 1]))
  }

  lemma {:induction false} FirstCommaAt(a: string, rest: string)
    requires (forall i :: 0 <= i < |a| ==> a[i] != ',') && (rest == "" || rest[0] == ',')
    ensures FirstComma(a + rest) == |a|
    decreases |a|
  {
    if a == "" {
      assert a + rest == rest;
    } else {
      assert (a + rest)[1..] == a[1..] + rest;
      FirstCommaAt(a[1..], rest);
    }
  }

  predicate AreIds(ids: seq<int>) {
    forall i :: 0 <= i < |ids| ==> 0 <= ids[i] <= INT_MAX
  }

  lemma {:induction false} FieldsOne(a: string)
    requires forall i :: 0 <= i < |a| ==> a[i] != ','
    ensures Fields(a) == [a]
  {
    FirstCommaAt(a, "");
    assert a + "" == a;
  }

  lemma {:induction false} FieldsNext(a: string, rest: string)
    requires forall i :: 0 <= i < |a| ==> a[i] != ','
    ensures Fields(a + "," + rest) == [a] + Fields(rest)
  {
    var s := a + "," + rest;
    assert s == a + ("," + rest);
    FirstCommaAt(a, "," + rest);
    hide FirstComma;
    assert s[..|a|] == a && s[|a| + 1..] == rest;
  }

  lemma {:induction false} NumbersNext(a: string, n: int, rest: seq<string>, ids: seq<int>)
    requires Stoi(a) == Number(n) && Numbers(rest) == Some(ids)
    ensures Numbers([a] + rest) == Some([n] + ids)
  {
    assert ([a] + rest)[1..] == rest;
  }

  lemma {:induction false} NoCommas(n: nat)
    ensures forall i :: 0 <= i < |ToString(n)| ==> ToString(n)[i] != ','
  {
    assert forall i :: 0 <= i < |ToString(n)| ==> IsDigit(ToString(n)[i]);
  }

  lemma {:induction false} OneRead(id: nat)
    requires id <= INT_MAX
    ensures Numbers(Fields(ToString(id))) == Some([id])
  {
    var first := ToString(id);
    StoiToString(id);
    NoCommas(id);
    FieldsOne(first);
    NoNumbers();
    hide Stoi, ToString, Fields, Numbers, FirstComma;
    NumbersNext(first, id, [], []);
    assert [first] + [] == [first] && [id] + [] == [id];
  }

  lemma {:induction false} NextRead(id: nat, rest: string, ids: seq<int>)
    requires id <= INT_MAX && Numbers(Fields(rest)) == Some(ids)
    ensures Numbers(Fields(ToString(id) + "," + rest)) == Some([id] + ids)
  {
    var first := ToString(id);
    StoiToString(id);
    NoCommas(id);
    FieldsNext(first, rest);
    hide Stoi, ToString, Fields, Numbers, FirstComma;
    NumbersNext(first, id, Fields(rest), ids);
  }

  lemma {:induction false} JoinedRead(ids: seq<int>)
    requires AreIds(ids) && ids != []
    ensures Numbers(Fields(Joined(ids))) == Some(ids) && Joined(ids) != ""
    decreases |ids|
  {
    hide ToString, Fields, Numbers;
    if |ids| == 1 {
      OneRead(ids[0]);
      assert ids == [ids[0]];
    } else {
      JoinedRead(ids[1..]);
      NextRead(ids[0], Joined(ids[1..]), ids[1..]);
      assert ids == [ids[0]] + ids[1..];
    }
  }

  lemma {:induction false} NoNumbers()
    ensures Numbers([]) == Some([])
  {
  }

  /** The list in an answer is read back as it is. */
  lemma {:induction false} ListRead(ids: seq<int>)
    requires AreIds(ids)
    ensures ReadList(ListBody(ids)) == Some(ids)
  {
    if ids == [] {
      assert ListBody(ids) == "[]";
    } else {
      JoinedRead(ids);
      var s := ListBody(ids);
      hide Joined, Fields, Numbers;
      assert s[1..|s| - 1] == Joined(ids);
    }
  }

  lemma {:induction false} StoreIds(canon: Canon, stores: seq<Store>, xs: seq<Exchange>)
    requires IsHistory(canon, stores, xs)
    ensures forall k :: k in stores[|xs|] ==> 0 <= k.1 <= INT_MAX
    decreases |xs|
  {
    if xs != [] {
      var n := |xs| - 1;
      assert IsHistory(canon, stores[..n + 1], xs[..n]);
      StoreIds(canon, stores[..n + 1], xs[..n]);
      assert Answered(canon, stores[n], xs[n].req, xs[n].path, stores[n + 1], xs[n].res);
      if Extract(xs[n].path).Elements? { ExtractedId(xs[n].path); }
      hide Extract, NextId, IdsOf, ToString, IdBody, IsHistory;
    }
  }

  /** After any history a GET of an entity without an id is answered with a list that reads as the
      strictly ascending numbers of exactly those entries that were written and not deleted since. */
  lemma {:induction false} ListAnswersLatest(canon: Canon, stores: seq<Store>, xs: seq<Exchange>, req: Request,
                                             path: string, entity: string, next: Store, res: Response)
    returns (ids: seq<int>)
    requires IsHistory(canon, stores, xs) && req.verb == Get && Extract(path) == Elements(entity, 0)
    requires Answered(canon, stores[|xs|], req, path, next, res)
    ensures res.status == 200 && res.contentType == "application/json" && next == stores[|xs|]
    ensures ReadList(res.body) == Some(ids)
    ensures forall x, y :: 0 <= x < y < |ids| ==> ids[x] < ids[y]
    ensures forall id: nat :: id in ids <==> Latest(canon, xs, entity, id).Some?
    ensures forall id :: id in ids ==> id >= 0
  {
    var store := stores[|xs|];
    ids :| IsListing(ids, IdsOf(store, entity)) && (forall i :: 0 <= i < |ids| ==> ids[i] >= 0) &&
           res == Response(200, "application/json", ListBody(ids));
    StoreIds(canon, stores, xs);
    hide Extract, Answered, IsHistory, ListBody, ReadList, Latest;
    assert AreIds(ids) by {
      forall i | 0 <= i < |ids| ensures 0 <= ids[i] <= INT_MAX { assert ids[i] in IdsOf(store, entity); }
    }
    ListRead(ids);
    forall id: nat ensures id in ids <==> Latest(canon, xs, entity, id).Some? {
      StoreHoldsLatest(canon, stores, xs, entity, id);
      assert (entity, id) in store <==> id in IdsOf(store, entity);
    }
  }
}
