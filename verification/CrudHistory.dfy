/** What a client of the CRUD service can rely on, over any sequence of requests. */
module CrudHistory {
  import opened CrudHandler
  import opened CrudStore
  import opened CrudUrl
  import opened Decimal
  import opened FreshIds
  import opened Options
  import Dispatcher

  // ---------------------------------------------------------------------------------------
  // One request
  // ---------------------------------------------------------------------------------------

  /** GET is safe, and so is every request that is not answered with 200. */
  lemma {:induction false} SafeOrRejected(canon: Canon, store: Store, req: Request, path: string, next: Store,
                                          res: Response)
    requires Answered(canon, store, req, path, next, res)
    requires req.verb == Get || res.status != 200
    ensures next == store
  {
    if req.verb == Delete && Extract(path).Elements? {
      var k := (Extract(path).entity, Extract(path).id);
      assert k !in store ==> store - {k} == store;
    }
  }

  /** PUT and DELETE are idempotent on the store. */
  lemma {:induction false} Idempotent(canon: Canon, store: Store, req: Request, path: string, once: Store, twice: Store,
                                      res: Response, again: Response)
    requires req.verb == Put || req.verb == Delete
    requires Answered(canon, store, req, path, once, res) && Answered(canon, once, req, path, twice, again)
    ensures twice == once
  {
  }

  /** POST gives an id that was free, and changes nothing else. */
  lemma {:induction false} PostAddsOne(canon: Canon, store: Store, req: Request, path: string, next: Store,
                                       res: Response)
    returns (entity: string, id: nat)
    requires Answered(canon, store, req, path, next, res) && req.verb == Post && res.status == 200
    ensures (entity, id) !in store && canon(req.body).Some? && next == store[(entity, id) := canon(req.body).value]
    ensures res.body == IdBody(id)
    ensures forall i :: i in IdsOf(store, entity) ==> i < id
  {
    entity := Extract(path).entity;
    id := NextId(IdsOf(store, entity));
    assert (entity, id) in store ==> id in IdsOf(store, entity);
  }

  // ---------------------------------------------------------------------------------------
  // Histories
  // ---------------------------------------------------------------------------------------

  /** A request, the part of its target after the location, and its answer. */
  datatype Exchange = Exchange(req: Request, path: string, res: Response)

  /** The store between the exchanges, from an empty store on. */
  ghost predicate IsHistory(canon: Canon, stores: seq<Store>, xs: seq<Exchange>) {
    && |stores| == |xs| + 1 && stores[0] == map[]
    && forall i :: 0 <= i < |xs| ==> Answered(canon, stores[i], xs[i].req, xs[i].path, stores[i + 1], xs[i].res)
  }

  datatype Effect = Wrote(text: string) | Removed | Nothing

  /** What an exchange did to an entity's id, as its request and its answer tell. */
  function EffectOn(canon: Canon, x: Exchange, entity: string, id: nat): Effect {
    match Extract(x.path)
    case Elements(e, i) =>
      if e != entity || x.res.status != 200 || (x.req.verb != Delete && canon(x.req.body) == None) then Nothing
      else if x.req.verb == Put && i == id then Wrote(canon(x.req.body).value)
      else if x.req.verb == Post && x.res.body == IdBody(id) then Wrote(canon(x.req.body).value)
      else if x.req.verb == Delete && i == id then Removed
      else Nothing
    case _ => Nothing
  }

  /** The latest text written and not removed since. */
  function Latest(canon: Canon, xs: seq<Exchange>, entity: string, id: nat): Option<string> {
    if xs == [] then None
    else
      var n := |xs| - 1;
      match EffectOn(canon, xs[n], entity, id)
      case Wrote(text) => Some(text)
      case Removed => None
      case Nothing => Latest(canon, xs[..n], entity, id)
  }

  lemma {:induction false} IdBodyInjective(a: nat, b: nat)
    requires IdBody(a) == IdBody(b)
    ensures a == b
  {
    assert IdBody(a)[7..|IdBody(a)| - 1] == ToString(a);
    assert IdBody(b)[7..|IdBody(b)| - 1] == ToString(b);
    ToStringInjective(a, b);
  }

  lemma {:induction false} ExchangeEffect(canon: Canon, store: Store, x: Exchange, next: Store, entity: string, id: nat)
    requires Answered(canon, store, x.req, x.path, next, x.res)
    ensures Retrieved(next, entity, id) ==
      match EffectOn(canon, x, entity, id) {
        case Wrote(text) => Some(text)
        case Removed => None
        case Nothing => Retrieved(store, entity, id)
      }
  {
    hide ToString, IdBody, NextId, IdsOf, Extract;
    if x.req.verb == Post && x.res.status == 200 && Extract(x.path).entity == entity {
      var newId := NextId(IdsOf(store, entity));
      if x.res.body == IdBody(id) { IdBodyInjective(newId, id); }
    }
  }

  /** After any history the store holds exactly the latest text of every id, as the answers alone
      tell it. */
  lemma {:induction false} StoreHoldsLatest(canon: Canon, stores: seq<Store>, xs: seq<Exchange>, entity: string,
                                            id: nat)
    requires IsHistory(canon, stores, xs)
    ensures Retrieved(stores[|xs|], entity, id) == Latest(canon, xs, entity, id)
    decreases |xs|
  {
    if xs != [] {
      var n := |xs| - 1;
      assert IsHistory(canon, stores[..n + 1], xs[..n]);
      StoreHoldsLatest(canon, stores[..n + 1], xs[..n], entity, id);
      assert Answered(canon, stores[n], xs[n].req, xs[n].path, stores[n + 1], xs[n].res);
      hide Answered, EffectOn, Retrieved;
      ExchangeEffect(canon, stores[n], xs[n], stores[n + 1], entity, id);
    }
  }

  /** So a GET is answered with the canonical JSON of the latest successful PUT or POST that no
      DELETE has followed, and with 404 if there is none. */
  lemma {:induction false} GetAnswersLatest(canon: Canon, stores: seq<Store>, xs: seq<Exchange>, req: Request,
                                            entity: string, id: nat, next: Store, res: Response)
    requires IsHistory(canon, stores, xs) && id > 0 && id <= INT_MAX && entity != "" && AllLetters(entity)
    requires req.verb == Get && req.ok
    requires Answered(canon, stores[|xs|], req, "/" + entity + "/" + ToString(id), next, res)
    ensures res ==
      match Latest(canon, xs, entity, id) {
        case Some(text) => Response(200, "application/json", text)
        case None => FILE_NOT_FOUND
      }
    ensures next == stores[|xs|]
  {
    ExtractAddress(entity, id);
    StoreHoldsLatest(canon, stores, xs, entity, id);
    hide ToString, Extract, Latest, IsHistory;
  }

  /** The address of an id below a location is covered by that location, and the handler that is
      made for the location reads it as that entity and id. */
  lemma {:induction false} AddressServed(location: string, entity: string, id: nat)
    requires location != "" && entity != "" && AllLetters(entity) && id <= INT_MAX
    ensures var prefix := Dispatcher.WithoutSlash(location);
            var target := prefix + "/" + entity + "/" + ToString(id);
            Dispatcher.Covers(location, target) && Extract(target[|prefix|..]) == Elements(entity, id)
  {
    var prefix := Dispatcher.WithoutSlash(location);
    var rest := "/" + entity + "/" + ToString(id);
    var target := prefix + "/" + entity + "/" + ToString(id);
    assert target == prefix + rest;
    assert Dispatcher.Slashed(location) == prefix + "/" == target[..|prefix| + 1];
    ExtractAddress(entity, id);
  }

  /** Canonicalising JSON again changes nothing. */
  ghost predicate IsCanonical(canon: Canon) {
    forall body :: canon(body).Some? ==> canon(canon(body).value) == canon(body)
  }

  /** Every stored text is the canonical form of itself. */
  ghost predicate AllCanonical(canon: Canon, store: Store) {
    forall k :: k in store ==> canon(store[k]) == Some(store[k])
  }

  lemma {:induction false} StoreIsCanonical(canon: Canon, stores: seq<Store>, xs: seq<Exchange>)
    requires IsCanonical(canon) && IsHistory(canon, stores, xs)
    ensures AllCanonical(canon, stores[|xs|])
    decreases |xs|
  {
    if xs != [] {
      var n := |xs| - 1;
      assert IsHistory(canon, stores[..n + 1], xs[..n]);
      StoreIsCanonical(canon, stores[..n + 1], xs[..n]);
      assert Answered(canon, stores[n], xs[n].req, xs[n].path, stores[n + 1], xs[n].res);
      hide Extract, NextId, IdsOf, ToString, IdBody;
    }
  }

  /** Writing back what a GET returned changes nothing. */
  lemma {:induction false} PutBackChangesNothing(canon: Canon, stores: seq<Store>, xs: seq<Exchange>, get: Request,
                                                 put: Request,
                                                 entity: string, id: nat, got: Response, next: Store, done: Response)
    requires IsCanonical(canon) && IsHistory(canon, stores, xs) && 0 < id <= INT_MAX && entity != "" &&
      AllLetters(entity)
    requires get.verb == Get && Answered(canon, stores[|xs|], get, "/" + entity + "/" + ToString(id), stores[|xs|], got)
    requires got.status == 200 && put.verb == Put && put.body == got.body
    requires Answered(canon, stores[|xs|], put, "/" + entity + "/" + ToString(id), next, done)
    ensures next == stores[|xs|]
  {
    ExtractAddress(entity, id);
    StoreIsCanonical(canon, stores, xs);
    hide ToString, Extract, IsHistory;
    var store := stores[|xs|];
    assert (entity, id) in store && got.body == store[(entity, id)];
    assert store[(entity, id) := got.body] == store;
  }
}
