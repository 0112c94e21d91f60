/**
 * The two persisted documents, Template and Category, as immutable records.
 * A PHP setter that mutates `$this` and returns it becomes a function from the
 * old record to the new one; fluent chaining is function composition.
 */
module Documents {
  import opened Wrappers
  import opened Php

  /** PHP object identity, the thing `===` and `Collection::contains` compare. */
  type Ref = int
  /** A MongoDB document id (an ObjectId string); its generation is not modelled. */
  type Id = string
  /** An abstract clock reading (`new DateTimeImmutable()`). */
  type Time = nat

  /**
   * A template document. `name` and `displayName` are typed properties without a
   * default, so they are `None` (uninitialised) until their setter runs.
   */
  datatype Template = Template(
    ref: Ref,
    id: Option<Id>,
    name: Option<string>,
    displayName: Option<string>,
    category: Option<Ref>,
    preview: Hash,
    templateData: Hash,
    createdAt: Time,
    updatedAt: Time)

  /** A category document; `templates` is the in-memory inverse side of `Template.category`. */
  datatype Category = Category(
    ref: Ref,
    id: Option<Id>,
    name: Option<string>,
    displayName: Option<string>,
    templates: seq<Ref>,
    createdAt: Time,
    updatedAt: Time)

  // ---------------------------------------------------------------- Template

  /**
   * `new Template()`: no category and empty payloads. The constructor reads the
   * clock twice, first for `createdAt` and then for `updatedAt`.
   */
  function NewTemplate(self: Ref, created: Time, updated: Time): (t: Template)
    ensures t.ref == self && t.id.None?
    ensures t.name.None? && t.displayName.None?
    ensures t.category.None?
    ensures t.preview == map[] && t.templateData == map[]
    ensures t.createdAt == created && t.updatedAt == updated
  {
    Template(self, None, None, None, None, map[], map[], created, updated)
  }

  /** `setName`: sets the name and nothing else. */
  function SetName(t: Template, name: string): (r: Template)
    ensures r.name == Some(name)
    ensures r == t.(name := r.name)
  {
    t.(name := Some(name))
  }

  /** `setDisplayName`: sets the display name and nothing else. */
  function SetDisplayName(t: Template, displayName: string): (r: Template)
    ensures r.displayName == Some(displayName)
    ensures r == t.(displayName := r.displayName)
  {
    t.(displayName := Some(displayName))
  }

  /** `setCategory(?Category)`: links or (with `None`) unlinks; the category's own collection is not touched. */
  function SetCategory(t: Template, category: Option<Ref>): (r: Template)
    ensures r.category == category
    ensures r == t.(category := r.category)
  {
    t.(category := category)
  }

  /** `setPreview`: stores the map as given. */
  function SetPreview(t: Template, preview: Hash): (r: Template)
    ensures r.preview == preview
    ensures r == t.(preview := r.preview)
  {
    t.(preview := preview)
  }

  /** `setTemplateData`: stores the map as given. */
  function SetTemplateData(t: Template, templateData: Hash): (r: Template)
    ensures r.templateData == templateData
    ensures r == t.(templateData := r.templateData)
  {
    t.(templateData := templateData)
  }

  /** The `PreUpdate` hook, invoked explicitly: refreshes `updatedAt` only. */
  function TouchTemplate(t: Template, now: Time): (r: Template)
    ensures r.updatedAt == now
    ensures r == t.(updatedAt := r.updatedAt)
  {
    t.(updatedAt := now)
  }

  /** One mutation a caller can apply to a template through its public surface. */
  datatype TemplateEdit =
    | EditName(name: string)
    | EditDisplayName(displayName: string)
    | EditCategory(category: Option<Ref>)
    | EditPreview(preview: Hash)
    | EditTemplateData(templateData: Hash)
    | Touch(at: Time)

  function ApplyEdit(t: Template, e: TemplateEdit): Template
  {
    match e
    case EditName(n) => SetName(t, n)
    case EditDisplayName(d) => SetDisplayName(t, d)
    case EditCategory(c) => SetCategory(t, c)
    case EditPreview(p) => SetPreview(t, p)
    case EditTemplateData(d) => SetTemplateData(t, d)
    case Touch(now) => TouchTemplate(t, now)
  }

  /** The edits applied left to right. */
  function ApplyEdits(t: Template, es: seq<TemplateEdit>): Template
    decreases |es|
  {
    if |es| == 0 then t else ApplyEdits(ApplyEdit(t, es[0]), es[1..])
  }

  /** Every clock reading used by a `Touch` in `es` is at or after `since`. */
  predicate TouchesNotBefore(es: seq<TemplateEdit>, since: Time)
  {
    forall i :: 0 <= i < |es| && es[i].Touch? ==> es[i].at >= since
  }

  /**
   * Whatever edits are applied, the identity, the id and `createdAt` never change
   * (there is no setter for them), and `updatedAt >= createdAt` is kept as long as
   * the clock never reads earlier than the creation time.
   */
  lemma {:induction false} EditsKeepTimestampOrder(t: Template, es: seq<TemplateEdit>)
    requires t.updatedAt >= t.createdAt
    requires TouchesNotBefore(es, t.createdAt)
    ensures ApplyEdits(t, es).createdAt == t.createdAt
    ensures ApplyEdits(t, es).ref == t.ref && ApplyEdits(t, es).id == t.id
    ensures ApplyEdits(t, es).updatedAt >= ApplyEdits(t, es).createdAt
    decreases |es|
  {
    if |es| > 0 {
      var t' := ApplyEdit(t, es[0]);
      assert TouchesNotBefore(es[1..], t.createdAt) by {
        forall i | 0 <= i < |es[1..]| && es[1..][i].Touch?
          ensures es[1..][i].at >= t.createdAt
        {
          assert es[1..][i] == es[i + 1];
        }
      }
      EditsKeepTimestampOrder(t', es[1..]);
    }
  }

  /** Setters alone never move `updatedAt`: only an explicit `Touch` does. */
  lemma {:induction false} SettersLeaveUpdatedAt(t: Template, es: seq<TemplateEdit>)
    requires forall i :: 0 <= i < |es| ==> !es[i].Touch?
    ensures ApplyEdits(t, es).updatedAt == t.updatedAt
    ensures ApplyEdits(t, es).createdAt == t.createdAt
    decreases |es|
  {
    if |es| > 0 {
      assert forall i :: 0 <= i < |es[1..]| ==> es[1..][i] == es[i + 1];
      SettersLeaveUpdatedAt(ApplyEdit(t, es[0]), es[1..]);
    }
  }

  /** The preview last set is the preview read back, of any nesting, whatever other fields are edited after it. */
  lemma {:induction false} PreviewRoundTrip(t: Template, p: Hash, rest: seq<TemplateEdit>)
    requires forall i :: 0 <= i < |rest| ==> !rest[i].EditPreview?
    ensures ApplyEdits(t, [EditPreview(p)] + rest).preview == p
    decreases |rest|
  {
    PreviewUntouched(SetPreview(t, p), rest);
    assert ([EditPreview(p)] + rest)[1..] == rest;
  }

  lemma {:induction false} PreviewUntouched(t: Template, es: seq<TemplateEdit>)
    requires forall i :: 0 <= i < |es| ==> !es[i].EditPreview?
    ensures ApplyEdits(t, es).preview == t.preview
    decreases |es|
  {
    if |es| > 0 {
      assert forall i :: 0 <= i < |es[1..]| ==> es[1..][i] == es[i + 1];
      PreviewUntouched(ApplyEdit(t, es[0]), es[1..]);
    }
  }

  /** The template data last set is the template data read back, whatever other fields are edited after it. */
  lemma {:induction false} TemplateDataRoundTrip(t: Template, d: Hash, rest: seq<TemplateEdit>)
    requires forall i :: 0 <= i < |rest| ==> !rest[i].EditTemplateData?
    ensures ApplyEdits(t, [EditTemplateData(d)] + rest).templateData == d
    decreases |rest|
  {
    TemplateDataUntouched(SetTemplateData(t, d), rest);
    assert ([EditTemplateData(d)] + rest)[1..] == rest;
  }

  lemma {:induction false} TemplateDataUntouched(t: Template, es: seq<TemplateEdit>)
    requires forall i :: 0 <= i < |es| ==> !es[i].EditTemplateData?
    ensures ApplyEdits(t, es).templateData == t.templateData
    decreases |es|
  {
    if |es| > 0 {
      assert forall i :: 0 <= i < |es[1..]| ==> es[1..][i] == es[i + 1];
      TemplateDataUntouched(ApplyEdit(t, es[0]), es[1..]);
    }
  }

  // ---------------------------------------------------------------- Category

  /**
   * `new Category()`: an empty template collection. Like the template
   * constructor, it reads the clock twice, for `createdAt` and then `updatedAt`.
   */
  function NewCategory(self: Ref, created: Time, updated: Time): (c: Category)
    ensures c.ref == self && c.id.None?
    ensures c.name.None? && c.displayName.None?
    ensures c.templates == []
    ensures c.createdAt == created && c.updatedAt == updated
  {
    Category(self, None, None, None, [], created, updated)
  }

  /** Category `setName`: sets the name and nothing else. */
  function SetCategoryName(c: Category, name: string): (r: Category)
    ensures r.name == Some(name)
    ensures r == c.(name := r.name)
  {
    c.(name := Some(name))
  }

  /** Category `setDisplayName`: sets the display name and nothing else. */
  function SetCategoryDisplayName(c: Category, displayName: string): (r: Category)
    ensures r.displayName == Some(displayName)
    ensures r == c.(displayName := r.displayName)
  {
    c.(displayName := Some(displayName))
  }

  /** Category `PreUpdate` hook, invoked explicitly: refreshes `updatedAt` only. */
  function TouchCategory(c: Category, now: Time): (r: Category)
    ensures r.updatedAt == now
    ensures r == c.(updatedAt := r.updatedAt)
  {
    c.(updatedAt := now)
  }

  /**
   * One mutation a caller can apply to a category: its two setters, the
   * `PreUpdate` hook, and a new state of the template collection (what
   * `addTemplate` and `removeTemplate` produce on this side of the link).
   */
  datatype CategoryEdit =
    | RenameCategory(name: string)
    | RedisplayCategory(displayName: string)
    | ReplaceTemplates(templates: seq<Ref>)
    | TouchCategoryAt(at: Time)

  function ApplyCategoryEdit(c: Category, e: CategoryEdit): Category
  {
    match e
    case RenameCategory(n) => SetCategoryName(c, n)
    case RedisplayCategory(d) => SetCategoryDisplayName(c, d)
    case ReplaceTemplates(ts) => c.(templates := ts)
    case TouchCategoryAt(now) => TouchCategory(c, now)
  }

  /** The category edits applied left to right. */
  function ApplyCategoryEdits(c: Category, es: seq<CategoryEdit>): Category
    decreases |es|
  {
    if |es| == 0 then c else ApplyCategoryEdits(ApplyCategoryEdit(c, es[0]), es[1..])
  }

  /** Every clock reading used by a `TouchCategoryAt` in `es` is at or after `since`. */
  predicate CategoryTouchesNotBefore(es: seq<CategoryEdit>, since: Time)
  {
    forall i :: 0 <= i < |es| && es[i].TouchCategoryAt? ==> es[i].at >= since
  }

  /**
   * Whatever edits are applied to a category, its identity, id and `createdAt`
   * never change, and `updatedAt >= createdAt` is kept as long as the clock never
   * reads earlier than the creation time.
   */
  lemma {:induction false} CategoryEditsKeepTimestampOrder(c: Category, es: seq<CategoryEdit>)
    requires c.updatedAt >= c.createdAt
    requires CategoryTouchesNotBefore(es, c.createdAt)
    ensures ApplyCategoryEdits(c, es).createdAt == c.createdAt
    ensures ApplyCategoryEdits(c, es).ref == c.ref && ApplyCategoryEdits(c, es).id == c.id
    ensures ApplyCategoryEdits(c, es).updatedAt >= ApplyCategoryEdits(c, es).createdAt
    decreases |es|
  {
    if |es| > 0 {
      assert CategoryTouchesNotBefore(es[1..], c.createdAt) by {
        forall i | 0 <= i < |es[1..]| && es[1..][i].TouchCategoryAt?
          ensures es[1..][i].at >= c.createdAt
        {
          assert es[1..][i] == es[i + 1];
        }
      }
      CategoryEditsKeepTimestampOrder(ApplyCategoryEdit(c, es[0]), es[1..]);
    }
  }

  /** A category built from two clock readings taken in order satisfies the timestamp order, and edits keep it. */
  lemma NewCategoryEditsKeepTimestampOrder(self: Ref, created: Time, updated: Time, es: seq<CategoryEdit>)
    requires created <= updated
    requires CategoryTouchesNotBefore(es, created)
    ensures ApplyCategoryEdits(NewCategory(self, created, updated), es).createdAt == created
    ensures ApplyCategoryEdits(NewCategory(self, created, updated), es).updatedAt >= created
  {
    CategoryEditsKeepTimestampOrder(NewCategory(self, created, updated), es);
  }
}
