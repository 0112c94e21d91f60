/**
 * `TemplateService`: creation with its two checks, the read pass-throughs, the
 * empty-page policy for unknown categories, and staged deletion. The service
 * only registers changes with the unit of work; committing them is the caller's
 * job, so no operation here changes the committed store.
 */
module Service {
  import opened Wrappers
  import opened Php
  import opened Documents
  import opened Pagination
  import Repository
  import opened Request

  /** A change registered with the unit of work (`persist` / `remove`), applied only on flush. */
  datatype Op = Persist(template: Template) | Remove(template: Template)

  /** The document manager: the committed contents plus the changes pending since the last flush. */
  datatype DocumentManager = DocumentManager(store: Repository.Store, pending: seq<Op>)

  /**
   * Why `create` fails: the two `InvalidArgumentException`s, and the `TypeError`
   * that strict typing raises when an untyped request field reaches a typed
   * parameter with a value of the wrong type.
   */
  datatype ServiceError =
    | NameConflict(name: string)
    | CategoryNotFound(categoryId: string)
    | TypeMismatch(field: string)
  {
    /** The failures the controller catches (`InvalidArgumentException`). */
    predicate IsInvalidArgument()
    {
      NameConflict? || CategoryNotFound?
    }
  }

  /** The exception message of an `InvalidArgumentException`. */
  function Message(e: ServiceError): (m: string)
    requires e.IsInvalidArgument()
    ensures e.NameConflict? ==> m == "Template with name '" + e.name + "' already exists"
    ensures e.CategoryNotFound? ==> m == "Category with id '" + e.categoryId + "' not found"
  {
    match e
    case NameConflict(n) => "Template with name '" + n + "' already exists"
    case CategoryNotFound(id) => "Category with id '" + id + "' not found"
  }

  /** A repository query issued by `create`, recorded in the order issued. */
  datatype Lookup = NameLookup(name: string) | CategoryLookup(categoryId: string)

  /** The outcome of `create`: the template or the error, the document manager after, and the lookups made. */
  datatype Creation = Creation(result: Result<Template, ServiceError>, dm: DocumentManager, lookups: seq<Lookup>)

  /** Every field holds a value of the type the service's typed calls accept. */
  predicate WellTyped(req: CreateTemplateRequest)
  {
    && req.name.PString? && req.displayName.PString? && req.categoryId.PString?
    && req.preview.PArray? && req.templateData.PArray?
  }

  /** Both checks of `create` have passed: the name is free and the category was found. */
  predicate CategoryResolved(dm: DocumentManager, req: CreateTemplateRequest)
  {
    && req.name.PString? && !Repository.ExistsByName(dm.store, req.name.s, None)
    && req.categoryId.PString? && Repository.FindCategoryById(dm.store, req.categoryId.s).Some?
  }

  /**
   * `create`. The name check comes first, then the category lookup, then the
   * template is built and staged. `new Template($category)` passes an argument
   * the parameterless constructor silently drops, so the template is built with
   * no category.
   */
  function Create(dm: DocumentManager, req: CreateTemplateRequest, created: Time, updated: Time, self: Ref): (c: Creation)
    ensures c.dm.store == dm.store
    ensures c.result.Err? ==> c.dm == dm
    ensures c.result.Ok? ==> c.dm.pending == dm.pending + [Persist(c.result.value)]
    ensures !req.name.PString? ==> c.result == Err(TypeMismatch("name")) && c.lookups == []
    ensures req.name.PString? && Repository.ExistsByName(dm.store, req.name.s, None) ==>
              c.result == Err(NameConflict(req.name.s)) && c.lookups == [NameLookup(req.name.s)]
    ensures req.name.PString? && !Repository.ExistsByName(dm.store, req.name.s, None) && !req.categoryId.PString? ==>
              c.result == Err(TypeMismatch("categoryId")) && c.lookups == [NameLookup(req.name.s)]
    ensures req.name.PString? && !Repository.ExistsByName(dm.store, req.name.s, None) &&
            req.categoryId.PString? && Repository.FindCategoryById(dm.store, req.categoryId.s).None? ==>
              && c.result == Err(CategoryNotFound(req.categoryId.s))
              && c.lookups == [NameLookup(req.name.s), CategoryLookup(req.categoryId.s)]
    ensures CategoryResolved(dm, req) ==>
              c.lookups == [NameLookup(req.name.s), CategoryLookup(req.categoryId.s)]
    ensures CategoryResolved(dm, req) && !req.displayName.PString? ==>
              c.result == Err(TypeMismatch("displayName"))
    ensures CategoryResolved(dm, req) && req.displayName.PString? && !req.preview.PArray? ==>
              c.result == Err(TypeMismatch("preview"))
    ensures CategoryResolved(dm, req) && req.displayName.PString? && req.preview.PArray? &&
            !req.templateData.PArray? ==>
              c.result == Err(TypeMismatch("templateData"))
    ensures c.result.Ok? <==>
              && WellTyped(req)
              && !Repository.ExistsByName(dm.store, req.name.s, None)
              && Repository.FindCategoryById(dm.store, req.categoryId.s).Some?
    ensures c.result.Ok? ==>
              && c.result.value.name == Some(req.name.s)
              && c.result.value.displayName == Some(req.displayName.s)
              && c.result.value.preview == req.preview.entries
              && c.result.value.templateData == req.templateData.entries
              && c.result.value.category == None
              && c.result.value.id == None
              && c.result.value.ref == self
              && c.result.value.createdAt == created && c.result.value.updatedAt == updated
    ensures forall i :: 0 <= i < |c.lookups| && c.lookups[i].CategoryLookup? ==>
              i == 1 && c.lookups[0].NameLookup?
  {
    if !req.name.PString? then Creation(Err(TypeMismatch("name")), dm, [])
    else
      var name := req.name.s;
      if Repository.ExistsByName(dm.store, name, None) then
        Creation(Err(NameConflict(name)), dm, [NameLookup(name)])
      else if !req.categoryId.PString? then
        Creation(Err(TypeMismatch("categoryId")), dm, [NameLookup(name)])
      else
        var id := req.categoryId.s;
        var lookups := [NameLookup(name), CategoryLookup(id)];
        if Repository.FindCategoryById(dm.store, id).None? then
          Creation(Err(CategoryNotFound(id)), dm, lookups)
        else if !req.displayName.PString? then
          Creation(Err(TypeMismatch("displayName")), dm, lookups)
        else if !req.preview.PArray? then
          Creation(Err(TypeMismatch("preview")), dm, lookups)
        else if !req.templateData.PArray? then
          Creation(Err(TypeMismatch("templateData")), dm, lookups)
        else
          var t := NewTemplate(self, created, updated);
          var t := SetName(t, name);
          var t := SetDisplayName(t, req.displayName.s);
          var t := SetPreview(t, req.preview.entries);
          var t := SetTemplateData(t, req.templateData.entries);
          Creation(Ok(t), dm.(pending := dm.pending + [Persist(t)]), lookups)
  }

  /** `findById`: exactly the repository's answer. */
  function FindById(dm: DocumentManager, id: Id): (r: Option<Template>)
    ensures r == Repository.FindById(dm.store, id)
  {
    Repository.FindById(dm.store, id)
  }

  /** `findAll`: exactly the repository's page. */
  function FindAll(dm: DocumentManager, page: int, limit: int): (r: Paginated<Template>)
    requires page >= 1 && limit >= 1
    ensures r == Repository.FindAll(dm.store, page, limit)
  {
    Repository.FindAll(dm.store, page, limit)
  }

  /**
   * `findByCategory`: an unknown category is not an error but an empty page
   * echoing `page` and `limit`; a known one gets the repository's page.
   */
  function FindByCategory(dm: DocumentManager, categoryId: string, page: int, limit: int): (r: Paginated<Template>)
    requires page >= 1 && limit >= 1
    ensures Repository.FindCategoryById(dm.store, categoryId).None? ==> r == Paginated([], 0, page, limit)
    ensures Repository.FindCategoryById(dm.store, categoryId).Some? ==>
              r == Repository.FindByCategory(dm.store, Repository.FindCategoryById(dm.store, categoryId).value, page, limit)
    ensures r.page == page && r.limit == limit && |r.data| <= limit
  {
    match Repository.FindCategoryById(dm.store, categoryId)
    case None => Paginated([], 0, page, limit)
    case Some(category) => Repository.FindByCategory(dm.store, category, page, limit)
  }

  /** `delete`: stages the removal; the committed store is untouched until the caller flushes. */
  function Delete(dm: DocumentManager, t: Template): (r: DocumentManager)
    ensures r.store == dm.store
    ensures r.pending == dm.pending + [Remove(t)]
  {
    dm.(pending := dm.pending + [Remove(t)])
  }

  /** A category with no templates lists as `data = []`, `total = 0`, whether it exists or not. */
  lemma EmptyCategoryListsEmpty(dm: DocumentManager, categoryId: string, page: int, limit: int)
    requires page >= 1 && limit >= 1
    requires forall c, t :: c in dm.store.categories && c.id == Some(categoryId) && t in dm.store.templates ==>
               t.category != Some(c.ref)
    ensures FindByCategory(dm, categoryId, page, limit).data == []
    ensures FindByCategory(dm, categoryId, page, limit).total == 0
  {
    match Repository.FindCategoryById(dm.store, categoryId)
    case None =>
    case Some(category) =>
      Repository.FindByCategoryUnused(dm.store, category, page, limit);
  }

  /** A duplicate name is reported even when the category does not exist: the name check comes first. */
  lemma DuplicateNameWinsOverMissingCategory(dm: DocumentManager, req: CreateTemplateRequest, created: Time, updated: Time, self: Ref)
    requires req.name.PString? && req.categoryId.PString?
    requires exists t :: t in dm.store.templates && t.name == Some(req.name.s)
    requires Repository.FindCategoryById(dm.store, req.categoryId.s).None?
    ensures Create(dm, req, created, updated, self).result == Err(NameConflict(req.name.s))
    ensures Create(dm, req, created, updated, self).dm == dm
  {
  }

  /**
   * The unit test's expectation that the created template carries the looked-up
   * category does not hold: with the category present and the name free, the
   * created template has no category.
   */
  lemma CreatedTemplateLacksCategory()
    ensures var cat := NewCategory(7, 0, 0).(id := Some("category123"));
            var dm := DocumentManager(Repository.Store([], [cat]), []);
            var req := CreateTemplateRequest(PString("Basic Template"), PString("Basic Template Display"),
                                             PString("category123"), PArray(map[]), PArray(map[]));
            var c := Create(dm, req, 5, 5, 1);
            c.result.Ok? && c.result.value.category != Some(cat.ref)
  {
    var cat := NewCategory(7, 0, 0).(id := Some("category123"));
    var store := Repository.Store([], [cat]);
    assert Repository.FindCategoryById(store, "category123") == Some(cat);
  }
}
