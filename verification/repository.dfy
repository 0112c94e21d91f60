/**
 * Query semantics of `TemplateRepository` (and the id lookup of
 * `CategoryRepository`) over the committed contents of the two collections.
 */
module Repository {
  import opened Wrappers
  import opened Php
  import opened Documents
  import opened Pagination
  import opened Ordering

  /** The committed documents of the `templates` and `categories` collections, in natural order. */
  datatype Store = Store(templates: seq<Template>, categories: seq<Category>)

  /** MongoDB's `_id` is unique within a collection. */
  ghost predicate UniqueIds(store: Store)
  {
    && (forall i, j :: 0 <= i < j < |store.templates| && store.templates[i].id.Some? ==>
          store.templates[i].id != store.templates[j].id)
    && (forall i, j :: 0 <= i < j < |store.categories| && store.categories[i].id.Some? ==>
          store.categories[i].id != store.categories[j].id)
  }

  // ------------------------------------------------------------- id lookups

  function FirstTemplateWithId(ts: seq<Template>, id: Id): (r: Option<Template>)
    ensures r.Some? ==> r.value in ts && r.value.id == Some(id)
    ensures r.None? <==> forall i :: 0 <= i < |ts| ==> ts[i].id != Some(id)
  {
    if |ts| == 0 then None
    else if ts[0].id == Some(id) then Some(ts[0])
    else FirstTemplateWithId(ts[1..], id)
  }

  function FirstCategoryWithId(cs: seq<Category>, id: Id): (r: Option<Category>)
    ensures r.Some? ==> r.value in cs && r.value.id == Some(id)
    ensures r.None? <==> forall i :: 0 <= i < |cs| ==> cs[i].id != Some(id)
  {
    if |cs| == 0 then None
    else if cs[0].id == Some(id) then Some(cs[0])
    else FirstCategoryWithId(cs[1..], id)
  }

  /** `TemplateRepository::findById`: the stored template with that id; absence is a plain `None`. */
  function FindById(store: Store, id: Id): (r: Option<Template>)
    ensures r.Some? ==> r.value in store.templates && r.value.id == Some(id)
    ensures r.None? <==> forall t :: t in store.templates ==> t.id != Some(id)
  {
    FirstTemplateWithId(store.templates, id)
  }

  /** `CategoryRepository::findById`: the stored category with that id; absence is a plain `None`. */
  function FindCategoryById(store: Store, id: Id): (r: Option<Category>)
    ensures r.Some? ==> r.value in store.categories && r.value.id == Some(id)
    ensures r.None? <==> forall c :: c in store.categories ==> c.id != Some(id)
  {
    FirstCategoryWithId(store.categories, id)
  }

  /** With unique ids, `findById` returns exactly the template stored under that id. */
  lemma FindByIdFindsStored(store: Store, i: int)
    requires UniqueIds(store)
    requires 0 <= i < |store.templates| && store.templates[i].id.Some?
    ensures FindById(store, store.templates[i].id.value) == Some(store.templates[i])
  {
    var id := store.templates[i].id.value;
    var r := FindById(store, id);
    var j :| 0 <= j < |store.templates| && store.templates[j] == r.value;
  }

  // ------------------------------------------------------------- paging

  /** `skip(offset)->limit(limit)` on an ordered result; MongoDB reads a limit of 0 as "no limit", so it is excluded. */
  function Window<T>(s: seq<T>, offset: int, limit: int): (r: seq<T>)
    requires offset >= 0 && limit >= 1
    ensures |r| == Min(limit, Max(0, |s| - offset))
    ensures forall i :: 0 <= i < |r| ==> r[i] == s[offset + i]
  {
    if offset >= |s| then [] else s[offset .. Min(offset + limit, |s|)]
  }

  /** A window of a newest-first listing is itself newest first, and holds only listed items. */
  lemma WindowOfListing(s: seq<Template>, offset: int, limit: int)
    requires offset >= 0 && limit >= 1
    requires NewestFirst(s)
    ensures NewestFirst(Window(s, offset, limit))
    ensures forall t :: t in Window(s, offset, limit) ==> t in s
  {
    var w := Window(s, offset, limit);
    forall i, j | 0 <= i < j < |w|
      ensures w[i].createdAt >= w[j].createdAt
    {
      assert w[i] == s[offset + i] && w[j] == s[offset + j];
    }
    forall t | t in w
      ensures t in s
    {
      var i :| 0 <= i < |w| && w[i] == t;
      assert s[offset + i] == t;
    }
  }

  /** Sorting neither adds nor drops templates. */
  lemma ListingMembers(ts: seq<Template>)
    ensures forall t :: t in SortNewestFirst(ts) ==> t in ts
  {
    var listing := SortNewestFirst(ts);
    forall t | t in listing
      ensures t in ts
    {
      assert t in multiset(listing);
    }
  }

  /**
   * `data` is page `page` of `listing` cut into pages of `limit` items: the slice
   * `[offset, offset + limit)`, shorter only where the listing ends.
   */
  predicate IsPage(data: seq<Template>, listing: seq<Template>, page: int, limit: int)
    requires page >= 1 && limit >= 1
  {
    && |data| == Min(limit, Max(0, |listing| - OffsetOf(page, limit)))
    && forall i :: 0 <= i < |data| ==> data[i] == listing[OffsetOf(page, limit) + i]
  }

  /** The page `page` of `limit` items, taken from the newest-first ordering of `ts`. */
  function PageOf(ts: seq<Template>, page: int, limit: int): (r: Paginated<Template>)
    requires page >= 1 && limit >= 1
    ensures r.page == page && r.limit == limit && r.total == |ts|
    ensures IsPage(r.data, SortNewestFirst(ts), page, limit)
    ensures NewestFirst(r.data)
    ensures forall t :: t in r.data ==> t in ts
  {
    var listing := SortNewestFirst(ts);
    var offset := OffsetOf(page, limit);
    var data := Window(listing, offset, limit);
    WindowOfListing(listing, offset, limit);
    ListingMembers(ts);
    Paginated(data, |ts|, page, limit)
  }

  /**
   * `TemplateRepository::findAll`: the slice `[offset, offset + limit)` of all
   * templates newest first, with the total count of stored templates.
   */
  function FindAll(store: Store, page: int, limit: int): (r: Paginated<Template>)
    requires page >= 1 && limit >= 1
    ensures r.page == page && r.limit == limit
    ensures r.total == |store.templates|
    ensures IsPage(r.data, SortNewestFirst(store.templates), page, limit)
    ensures |r.data| <= limit
    ensures NewestFirst(r.data)
    ensures forall t :: t in r.data ==> t in store.templates
  {
    PageOf(store.templates, page, limit)
  }

  /** The templates whose category reference is `c`, in store order: the matching part of the multiset. */
  function Referencing(ts: seq<Template>, c: Ref): (r: seq<Template>)
    ensures forall t :: multiset(r)[t] == if t.category == Some(c) then multiset(ts)[t] else 0
    ensures |r| <= |ts|
  {
    if |ts| == 0 then []
    else
      assert ts == [ts[0]] + ts[1..];
      if ts[0].category == Some(c) then [ts[0]] + Referencing(ts[1..], c)
      else Referencing(ts[1..], c)
  }

  /**
   * `TemplateRepository::findByCategory`: the same paging over the templates that
   * reference `category`, with their count as the total.
   */
  function FindByCategory(store: Store, category: Category, page: int, limit: int): (r: Paginated<Template>)
    requires page >= 1 && limit >= 1
    ensures r.page == page && r.limit == limit
    ensures r.total == |Referencing(store.templates, category.ref)|
    ensures IsPage(r.data, SortNewestFirst(Referencing(store.templates, category.ref)), page, limit)
    ensures |r.data| <= limit
    ensures NewestFirst(r.data)
    ensures forall t :: t in r.data ==> t in store.templates && t.category == Some(category.ref)
  {
    var r := PageOf(Referencing(store.templates, category.ref), page, limit);
    ReferencingMembers(store.templates, category.ref, r.data);
    r
  }

  /** Whatever is drawn from the filtered templates is stored and references the category. */
  lemma ReferencingMembers(ts: seq<Template>, c: Ref, drawn: seq<Template>)
    requires forall t :: t in drawn ==> t in Referencing(ts, c)
    ensures forall t :: t in drawn ==> t in ts && t.category == Some(c)
  {
    forall t | t in drawn
      ensures t in ts && t.category == Some(c)
    {
      assert multiset(Referencing(ts, c))[t] > 0;
    }
  }

  /** Filtering by a category that every template references keeps the sequence as it is. */
  lemma {:induction false} ReferencingAll(ts: seq<Template>, c: Ref)
    requires forall t :: t in ts ==> t.category == Some(c)
    ensures Referencing(ts, c) == ts
    decreases |ts|
  {
    if |ts| > 0 {
      assert forall t :: t in ts[1..] ==> t in ts;
      ReferencingAll(ts[1..], c);
      assert ts == [ts[0]] + ts[1..];
    }
  }

  /** When every template belongs to the category, its listing is the same page as listing everything. */
  lemma FindByCategoryAllMatching(store: Store, category: Category, page: int, limit: int)
    requires page >= 1 && limit >= 1
    requires forall t :: t in store.templates ==> t.category == Some(category.ref)
    ensures FindByCategory(store, category, page, limit) == FindAll(store, page, limit)
  {
    ReferencingAll(store.templates, category.ref);
  }

  /** No template references the category: its listing is empty with total 0. */
  lemma FindByCategoryUnused(store: Store, category: Category, page: int, limit: int)
    requires page >= 1 && limit >= 1
    requires forall t :: t in store.templates ==> t.category != Some(category.ref)
    ensures FindByCategory(store, category, page, limit).data == []
    ensures FindByCategory(store, category, page, limit).total == 0
  {
    var matching := Referencing(store.templates, category.ref);
    assert forall t :: multiset(matching)[t] == 0;
    assert multiset(matching) == multiset{};
  }

  // ------------------------------------------------------------- name check

  /** `notEqual($excludeId)` is only added when `$excludeId` is truthy. */
  predicate ExcludedBy(t: Template, excludeId: Option<string>)
  {
    Truthy(excludeId) && t.id == Some(excludeId.value)
  }

  predicate NameMatches(t: Template, name: string, excludeId: Option<string>)
  {
    t.name == Some(name) && !ExcludedBy(t, excludeId)
  }

  /** The `count()` of the name query. */
  function CountNamed(ts: seq<Template>, name: string, excludeId: Option<string>): (n: nat)
    ensures n <= |ts|
    ensures n > 0 <==> exists i :: 0 <= i < |ts| && NameMatches(ts[i], name, excludeId)
  {
    if |ts| == 0 then 0
    else
      var rest := CountNamed(ts[1..], name, excludeId);
      assert forall i :: 0 < i < |ts| ==> ts[i] == ts[1..][i - 1];
      (if NameMatches(ts[0], name, excludeId) then 1 else 0) + rest
  }

  /**
   * `existsByName`: some stored template carries exactly this name (case
   * sensitive) and is not the excluded one; a falsy `excludeId` excludes nothing.
   */
  function ExistsByName(store: Store, name: string, excludeId: Option<string>): (r: bool)
    ensures r <==> exists t :: t in store.templates && t.name == Some(name) &&
                     !(Truthy(excludeId) && t.id == Some(excludeId.value))
  {
    CountNamed(store.templates, name, excludeId) > 0
  }

  /** `""` and `"0"` as the excluded id behave exactly like no exclusion at all. */
  lemma FalsyExcludeIgnored(store: Store, name: string, excludeId: Option<string>)
    requires !Truthy(excludeId)
    ensures ExistsByName(store, name, excludeId) == ExistsByName(store, name, None)
  {
  }

  /** Excluding its own id, a template whose name no other template shares reports no conflict. */
  lemma ExcludeSelf(store: Store, self: Template)
    requires self in store.templates && self.name.Some? && self.id.Some? && Truthy(self.id)
    requires forall t :: t in store.templates && t.name == self.name ==> t.id == self.id
    ensures !ExistsByName(store, self.name.value, self.id)
    ensures ExistsByName(store, self.name.value, None)
  {
  }
}
