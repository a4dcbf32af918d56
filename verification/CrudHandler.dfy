/** The CRUD request handler over the store. */
module CrudHandler {
  import opened CrudStore
  import opened CrudUrl
  import opened Decimal
  import opened FreshIds
  import opened Options
  import Dispatcher

  datatype Verb = Get | Post | Put | Delete | OtherVerb(name: string)

  /** A request; ok says whether the files it touches can be opened. */
  datatype Request = Request(verb: Verb, target: string, body: string, ok: bool)

  datatype Response = Response(status: int, contentType: string, body: string)

  /** Parsing and dumping JSON: the canonical text of a body, or None when the body is not JSON. */
  type Canon = string -> Option<string>

  /** What init_response leaves; setting only the status keeps the rest. */
  const INITIAL := Response(404, "text/plain", "404 Not Found")

  function BadRequest(message: string): Response {
    Response(400, "text/plain", message)
  }

  const FILE_NOT_FOUND := Response(404, "text/plain", "404 File Not Found")
  const INTERNAL_ERROR := Response(500, "text/plain", "500 Internal Server Error")

  function IdBody(id: nat): string {
    "{\"id\": " + ToString(id) + "}"
  }

  function Joined(ids: seq<int>): string
    requires forall i :: 0 <= i < |ids| ==> ids[i] >= 0
  {
    if ids == [] then ""
    else if |ids| == 1 then ToString(ids[0])
    else ToString(ids[0]) + "," + Joined(ids[1..])
  }

  /** The JSON text of a list of ids. */
  function ListBody(ids: seq<int>): string
    requires forall i :: 0 <= i < |ids| ==> ids[i] >= 0
  {
    "[" + Joined(ids) + "]"
  }

  /** The entity's ids have room for one more. */
  ghost predicate HasRoom(store: Store, entity: string) {
    forall i :: i in IdsOf(store, entity) ==> i < INT_MAX
  }

  // ---------------------------------------------------------------------------------------
  // What a request does, on the map that the store is
  // ---------------------------------------------------------------------------------------

  function GetResponse(store: Store, entity: string, id: int, ok: bool): Response {
    match if ok then Retrieved(store, entity, id) else None
    case Some(body) => Response(200, "application/json", body)
    case None => FILE_NOT_FOUND
  }

  /** The effect and the answer of a request for an entity and an id; id 0 stands for no id. The
      answer to a list request is a relation, as the list is given by what it contains. */
  ghost predicate Handled(canon: Canon, store: Store, req: Request, entity: string, id: nat, next: Store,
                          res: Response) {
    match req.verb
    case Get =>
      && next == store
      && (if id == 0 then
            exists ids: seq<int> ::
              IsListing(ids, IdsOf(store, entity)) && (forall i :: 0 <= i < |ids| ==> ids[i] >= 0) &&
              res == Response(200, "application/json", ListBody(ids))
          else res == GetResponse(store, entity, id, req.ok))
    case Post =>
      if id != 0 then next == store && res == BadRequest("POST requests cannot specify an entity ID")
      else
        (match canon(req.body)
         case None => next == store && res == BadRequest("")
         case Some(text) =>
           if !req.ok then next == store && res == INTERNAL_ERROR
           else
             var newId := NextId(IdsOf(store, entity));
             && 0 <= newId <= INT_MAX && next == store[(entity, newId) := text]
             && res == Response(200, "application/json", IdBody(newId)))
    case Put =>
      if id == 0 then next == store && res == BadRequest("PUT requests must specify an entity ID")
      else
        (match canon(req.body)
         case None => next == store && res == BadRequest("")
         case Some(text) =>
           if !req.ok then next == store && res == INTERNAL_ERROR
           else next == store[(entity, id) := text] && res == INITIAL.(status := 200))
    case Delete =>
      if id == 0 then next == store && res == BadRequest("DELETE requests must specify an entity ID")
      else
        && next == store - {(entity, id)}
        && res == (if (entity, id) in store then INITIAL.(status := 200) else FILE_NOT_FOUND)
    case OtherVerb(name) =>
      next == store && res == Response(405, "text/plain", "[" + name + "] Method Not Allowed")
  }

  /** The same from the part of the target after the handler's location. */
  ghost predicate Answered(canon: Canon, store: Store, req: Request, path: string, next: Store, res: Response) {
    match Extract(path)
    case NoMatch => next == store && res == BadRequest("Invalid request format for CRUD API")
    case Elements(entity, id) => id >= 0 && Handled(canon, store, req, entity, id, next, res)
    case Overflow => false
  }

  // ---------------------------------------------------------------------------------------
  // The handler
  // ---------------------------------------------------------------------------------------

  class CRUDRequestHandler {
    const locationPath: string
    const canon: Canon
    const crudStore: CRUDStore
    var res: Response

    /** One slash at the end of the location is removed. */
    constructor (location: string, canon: Canon, crudStore: CRUDStore)
      requires location != ""
      ensures locationPath == Dispatcher.WithoutSlash(location) && this.canon == canon && this.crudStore == crudStore
    {
      this.locationPath := if location[|location| - 1] == '/' then location[..|location| - 1] else location;
      this.canon := canon;
      this.crudStore := crudStore;
      this.res := INITIAL;
    }

    method GetEntity(id: nat, entity: string, ok: bool)
      requires crudStore.Valid() && this as object != crudStore
      modifies this
      ensures Handled(canon, crudStore.store, Request(Get, "", "", ok), entity, id, crudStore.store, res)
    {
      res := res.(contentType := "application/json");
      if id == 0 {
        res := res.(status := 200);
        var ids := crudStore.List(entity);
        ListNonNegative(crudStore.dirs, crudStore.store, entity, ids);
        res := res.(body := ListBody(ids));
        return;
      }
      var v := crudStore.Retrieve(entity, id, ok);
      if v.Some? {
        res := res.(status := 200, body := v.value);
      } else {
        res := FILE_NOT_FOUND;
      }
    }

    method PostEntity(entity: string, body: string, ok: bool)
      requires crudStore.Valid() && HasRoom(crudStore.store, entity)
      modifies this, crudStore
      ensures crudStore.Valid()
      ensures Handled(canon, old(crudStore.store), Request(Post, "", body, ok), entity, 0, crudStore.store, res)
    {
      var text := canon(body);
      if text == None {
        res := BadRequest("");
      } else {
        IdsBounded(crudStore.dirs, crudStore.store, entity);
        var id := crudStore.Create(entity, text.value, ok);
        if id == -1 {
          res := INTERNAL_ERROR;
        } else {
          res := Response(200, "application/json", IdBody(id));
        }
      }
    }

    method PutEntity(id: nat, entity: string, body: string, ok: bool)
      requires crudStore.Valid() && 0 < id <= INT_MAX && res == INITIAL
      modifies this, crudStore
      ensures crudStore.Valid()
      ensures Handled(canon, old(crudStore.store), Request(Put, "", body, ok), entity, id, crudStore.store, res)
    {
      var text := canon(body);
      if text == None {
        res := BadRequest("");
      } else {
        var done := crudStore.Update(entity, id, text.value, ok);
        if !done {
          res := INTERNAL_ERROR;
        } else {
          res := res.(status := 200);
        }
      }
    }

    method DeleteEntity(id: nat, entity: string, ok: bool)
      requires crudStore.Valid() && 0 < id && res == INITIAL
      modifies this, crudStore
      ensures crudStore.Valid()
      ensures Handled(canon, old(crudStore.store), Request(Delete, "", "", ok), entity, id, crudStore.store, res)
    {
      var done := crudStore.Del(entity, id);
      if done {
        res := res.(status := 200);
      } else {
        res := FILE_NOT_FOUND;
      }
    }

    /** The target must be at least as long as the location, as every dispatched target is; an id in
        it must fit an int, and a new entity must have room for an id. */
    method HandleRequest(req: Request) returns (r: Response)
      requires crudStore.Valid() && |locationPath| <= |req.target|
      requires var path := req.target[|locationPath|..];
               && Extract(path) != Overflow
               && (req.verb == Post && Extract(path).Elements? ==> HasRoom(crudStore.store, Extract(path).entity))
      modifies this, crudStore
      ensures crudStore.Valid()
      ensures Answered(canon, old(crudStore.store), req, req.target[|locationPath|..], crudStore.store, r)
    {
      res := INITIAL;
      var path := req.target[|locationPath|..];
      var elements := Extract(path);
      if elements == NoMatch {
        res := BadRequest("Invalid request format for CRUD API");
        return res;
      }
      ExtractedId(path);
      var entity, id := elements.entity, elements.id;
      match req.verb {
        case Get =>
          GetEntity(id, entity, req.ok);
        case Post =>
          if id != 0 {
            res := BadRequest("POST requests cannot specify an entity ID");
          } else {
            PostEntity(entity, req.body, req.ok);
          }
        case Put =>
          if id == 0 {
            res := BadRequest("PUT requests must specify an entity ID");
          } else {
            PutEntity(id, entity, req.body, req.ok);
          }
        case Delete =>
          if id == 0 {
            res := BadRequest("DELETE requests must specify an entity ID");
          } else {
            DeleteEntity(id, entity, req.ok);
          }
        case OtherVerb(name) =>
          res := Response(405, "text/plain", "[" + name + "] Method Not Allowed");
      }
      return res;
    }
  }

  lemma {:induction false} ListNonNegative(dirs: Directories, store: Store, entity: string, ids: seq<int>)
    requires Represents(dirs, store) && IsListing(ids, IdsOf(store, entity))
    ensures forall i :: 0 <= i < |ids| ==> ids[i] >= 0
  {
    IdsBounded(dirs, store, entity);
  }

  /** An extracted id is the value of digits, so it is not negative and fits an int. */
  lemma {:induction false} ExtractedId(path: string)
    requires Extract(path).Elements?
    ensures 0 <= Extract(path).id <= INT_MAX && Extract(path).entity != "" && AllLetters(Extract(path).entity)
  {
    ExtractComplete(path);
    var entity, digits :| Reads(path, entity, digits);
    ExtractReads(path, entity, digits);
  }
}
