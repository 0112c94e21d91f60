/**
 * The decision logic of `TemplateController`: clamping of the paging query
 * parameters, the list dispatch and its meta block, and the mapping of create
 * and delete outcomes to HTTP statuses and commits. Serialisation and response
 * objects are reduced to the data they carry.
 */
module Controller {
  import opened Wrappers
  import opened Php
  import opened Documents
  import opened Pagination
  import opened Request
  import Service

  const DefaultPage := 1
  const DefaultPerPage := 20
  const MaxPerPage := 100

  const StatusCreated := 201
  const StatusNoContent := 204
  const StatusBadRequest := 400
  const StatusNotFound := 404
  const StatusServerError := 500

  // ------------------------------------------------------------------ list

  /** `max(1, page)`, with 1 when the parameter is absent. */
  function ClampPage(raw: Option<int>): (p: int)
    ensures p >= 1
    ensures raw.None? ==> p == DefaultPage
    ensures raw.Some? ==> (if raw.value >= 1 then p == raw.value else p == 1)
  {
    Max(1, raw.GetOr(DefaultPage))
  }

  /** `min(100, max(1, perPage))`, with 20 when the parameter is absent. */
  function ClampPerPage(raw: Option<int>): (n: int)
    ensures 1 <= n <= MaxPerPage
    ensures raw.None? ==> n == DefaultPerPage
    ensures raw.Some? && 1 <= raw.value <= MaxPerPage ==> n == raw.value
    ensures raw.Some? && raw.value < 1 ==> n == 1
    ensures raw.Some? && raw.value > MaxPerPage ==> n == MaxPerPage
  {
    Min(MaxPerPage, Max(1, raw.GetOr(DefaultPerPage)))
  }

  /** Clamping an already clamped value changes nothing. */
  lemma ClampIdempotent(raw: Option<int>)
    ensures ClampPage(Some(ClampPage(raw))) == ClampPage(raw)
    ensures ClampPerPage(Some(ClampPerPage(raw))) == ClampPerPage(raw)
  {
  }

  /** The `meta` block of the list response. */
  datatype ListMeta = ListMeta(
    page: int,
    perPage: int,
    total: int,
    totalPages: int,
    hasNext: bool,
    hasPrevious: bool)

  datatype ListResponse = ListResponse(data: seq<Template>, meta: ListMeta)

  /** A truthy `categoryId` lists that category; anything else (absent, `""`, `"0"`) lists everything. */
  function ListResult(dm: Service.DocumentManager, categoryId: Option<string>, page: int, perPage: int): (r: Paginated<Template>)
    requires page >= 1 && perPage >= 1
    ensures Truthy(categoryId) ==> r == Service.FindByCategory(dm, categoryId.value, page, perPage)
    ensures !Truthy(categoryId) ==> r == Service.FindAll(dm, page, perPage)
  {
    if Truthy(categoryId) then Service.FindByCategory(dm, categoryId.value, page, perPage)
    else Service.FindAll(dm, page, perPage)
  }

  /** The meta block mirrors the result's page, limit, total and derived accessors. */
  function Meta(r: Paginated<Template>): (m: ListMeta)
    requires r.limit != 0
    ensures m.page == r.page && m.perPage == r.limit && m.total == r.total
    ensures m.totalPages == TotalPages(r)
    ensures m.hasNext == HasNextPage(r) && m.hasPrevious == HasPreviousPage(r)
  {
    ListMeta(r.page, r.limit, r.total, TotalPages(r), HasNextPage(r), HasPreviousPage(r))
  }

  /** `list`: clamp, dispatch, and report the page with its meta block. */
  function List(dm: Service.DocumentManager, categoryId: Option<string>, rawPage: Option<int>, rawPerPage: Option<int>)
    : (r: ListResponse)
    ensures r.meta.page >= 1 && 1 <= r.meta.perPage <= MaxPerPage
    ensures |r.data| <= r.meta.perPage
    ensures r.meta.hasPrevious <==> r.meta.page > 1
    ensures r.meta.hasNext <==> r.meta.page * r.meta.perPage < r.meta.total
    ensures var res := ListResult(dm, categoryId, ClampPage(rawPage), ClampPerPage(rawPerPage));
            r.data == res.data && r.meta == Meta(res)
  {
    var page := ClampPage(rawPage);
    var perPage := ClampPerPage(rawPerPage);
    var res := ListResult(dm, categoryId, page, perPage);
    HasNextIffMoreItems(res);
    ListResponse(res.data, Meta(res))
  }

  /** `""` and `"0"` as the category filter list every template, like no filter at all. */
  lemma FalsyCategoryListsAll(dm: Service.DocumentManager, rawPage: Option<int>, rawPerPage: Option<int>)
    ensures List(dm, Some(""), rawPage, rawPerPage) == List(dm, None, rawPage, rawPerPage)
    ensures List(dm, Some("0"), rawPage, rawPerPage) == List(dm, None, rawPage, rawPerPage)
  {
  }

  // ---------------------------------------------------------------- create

  /** What `create` answers. */
  datatype CreateResponse =
    | InvalidJson                                        // 400, body not decodable
    | ValidationFailed(violations: map<string, string>)  // 400, one message per property path
    | Rejected(error: string)                            // 400, the service's exception message
    | Created(template: Template)                        // 201
    | ServerError                                        // 500, an exception the action does not catch

  function CreateStatus(r: CreateResponse): (s: int)
    ensures s == StatusCreated <==> r.Created?
    ensures s == StatusBadRequest <==> r.InvalidJson? || r.ValidationFailed? || r.Rejected?
    ensures s == StatusServerError <==> r.ServerError?
  {
    match r
    case Created(_) => StatusCreated
    case ServerError => StatusServerError
    case _ => StatusBadRequest
  }

  /** The response together with the document manager after the action and whether it flushed. */
  datatype CreateExchange = CreateExchange(response: CreateResponse, dm: Service.DocumentManager, flushed: bool)

  /** `$errors[path] = message` for each violation in turn: the last message for a path wins. */
  function ViolationMap(vs: seq<Violation>): (m: map<string, string>)
    ensures m.Keys == Paths(vs)
    ensures forall i :: 0 <= i < |vs| && LastFor(vs, i) ==> m[vs[i].path] == vs[i].message
    decreases |vs|
  {
    if |vs| == 0 then map[]
    else
      var n := |vs| - 1;
      var front := vs[..n];
      var m := ViolationMap(front);
      PathsOfSnoc(vs);
      LastMessageWins(vs, m);
      m[vs[n].path := vs[n].message]
  }

  /** The property paths the violations mention. */
  function Paths(vs: seq<Violation>): (ps: set<string>)
    ensures ps == set i | 0 <= i < |vs| :: vs[i].path
    decreases |vs|
  {
    if |vs| == 0 then {}
    else
      var n := |vs| - 1;
      var front := vs[..n];
      var ps := Paths(front);
      assert forall i :: 0 <= i < n ==> front[i] == vs[i];
      assert (set i | 0 <= i < |vs| :: vs[i].path) == (set i | 0 <= i < n :: front[i].path) + {vs[n].path};
      ps + {vs[n].path}
  }

  /** Appending one violation to a map that holds the last message of each earlier path keeps that property. */
  lemma LastMessageWins(vs: seq<Violation>, m: map<string, string>)
    requires |vs| > 0
    requires m.Keys == Paths(vs[..|vs| - 1])
    requires forall i :: 0 <= i < |vs| - 1 && LastFor(vs[..|vs| - 1], i) ==> m[vs[i].path] == vs[i].message
    ensures forall i :: 0 <= i < |vs| && LastFor(vs, i) ==> m[vs[|vs| - 1].path := vs[|vs| - 1].message][vs[i].path] == vs[i].message
  {
    var n := |vs| - 1;
    var front := vs[..n];
    forall i | 0 <= i < |vs| && LastFor(vs, i)
      ensures m[vs[n].path := vs[n].message][vs[i].path] == vs[i].message
    {
      if i < n {
        assert vs[n].path != vs[i].path;
        assert LastFor(front, i) by {
          forall j | i < j < |front|
            ensures front[j].path != front[i].path
          {
            assert front[j] == vs[j] && front[i] == vs[i];
          }
        }
      }
    }
  }

  lemma PathsOfSnoc(vs: seq<Violation>)
    requires |vs| > 0
    ensures Paths(vs) == Paths(vs[..|vs| - 1]) + {vs[|vs| - 1].path}
  {
  }

  /** No violation after position `i` concerns the same property. */
  predicate LastFor(vs: seq<Violation>, i: int)
    requires 0 <= i < |vs|
  {
    forall j :: i < j < |vs| ==> vs[j].path != vs[i].path
  }

  /**
   * `create`: undecodable JSON and validation violations answer 400 before the
   * service is reached; a service `InvalidArgumentException` answers 400 with its
   * message and no flush; success flushes and answers 201. A body that decodes
   * to something other than an array, or a field of the wrong type, raises a
   * `TypeError` the action does not catch.
   */
  function CreateAction(dm: Service.DocumentManager, body: Option<Value>, created: Time, updated: Time, self: Ref): (x: CreateExchange)
    ensures body.None? ==> x == CreateExchange(InvalidJson, dm, false)
    ensures body.Some? && !body.value.PArray? ==> x == CreateExchange(ServerError, dm, false)
    ensures body.Some? && body.value.PArray? && Violations(FromArray(body.value.entries)) != [] ==>
              x.response == ValidationFailed(ViolationMap(Violations(FromArray(body.value.entries))))
    ensures body.Some? && body.value.PArray? && Violations(FromArray(body.value.entries)) == [] ==>
              var c := Service.Create(dm, FromArray(body.value.entries), created, updated, self);
              && (c.result.Ok? ==> x.response == Created(c.result.value))
              && (c.result.Err? && c.result.error.IsInvalidArgument() ==>
                    x.response == Rejected(Service.Message(c.result.error)))
              && (c.result.Err? && !c.result.error.IsInvalidArgument() ==> x.response == ServerError)
    ensures x.flushed <==> x.response.Created?
    ensures x.response.Created? ==> x.dm.pending == dm.pending + [Service.Persist(x.response.template)]
    ensures !x.response.Created? ==> x.dm == dm
    ensures x.dm.store == dm.store
  {
    match body
    case None => CreateExchange(InvalidJson, dm, false)
    case Some(v) =>
      if !v.PArray? then CreateExchange(ServerError, dm, false)
      else
        var req := FromArray(v.entries);
        var violations := Violations(req);
        if violations != [] then CreateExchange(ValidationFailed(ViolationMap(violations)), dm, false)
        else
          var c := Service.Create(dm, req, created, updated, self);
          match c.result
          case Ok(t) => CreateExchange(Created(t), c.dm, true)
          case Err(e) =>
            if e.IsInvalidArgument() then CreateExchange(Rejected(Service.Message(e)), c.dm, false)
            else CreateExchange(ServerError, c.dm, false)
  }

  /** A decodable body whose fields pass validation never reaches a type error in the service. */
  lemma ValidatedBodyIsWellTyped(data: Hash)
    requires Violations(FromArray(data)) == []
    requires var r := FromArray(data); r.name.PString? && r.displayName.PString? && r.categoryId.PString?
    ensures Service.WellTyped(FromArray(data))
  {
    NoViolationsIff(FromArray(data));
  }

  // ---------------------------------------------------------------- delete

  datatype DeleteExchange = DeleteExchange(status: int, dm: Service.DocumentManager, flushed: bool)

  /** `delete`: an unknown id answers 404 and stages nothing; a known one is removed, flushed, and answers 204. */
  function DeleteAction(dm: Service.DocumentManager, id: Id): (x: DeleteExchange)
    ensures x.dm.store == dm.store
    ensures Service.FindById(dm, id).None? ==> x.status == StatusNotFound && x.dm == dm && !x.flushed
    ensures Service.FindById(dm, id).Some? ==>
              && x.status == StatusNoContent && x.flushed
              && x.dm.pending == dm.pending + [Service.Remove(Service.FindById(dm, id).value)]
              && Service.FindById(dm, id).value.id == Some(id)
  {
    match Service.FindById(dm, id)
    case None => DeleteExchange(StatusNotFound, dm, false)
    case Some(t) => DeleteExchange(StatusNoContent, Service.Delete(dm, t), true)
  }
}
