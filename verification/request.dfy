/**
 * `CreateTemplateRequest`: the untyped request object built by `fromArray`, and
 * the field constraints declared on it, evaluated the way the validator reads
 * them (NotBlank, Length max 100, Type array).
 */
module Request {
  import opened Php

  /** The request's public properties are untyped, so each holds any decoded value. */
  datatype CreateTemplateRequest = CreateTemplateRequest(
    name: Value,
    displayName: Value,
    categoryId: Value,
    preview: Value,
    templateData: Value)

  /** `$data[key] ?? default`: the stored value unless the key is missing or holds `null`. */
  function Coalesce(data: Hash, key: string, default: Value): (v: Value)
    ensures StrKey(key) in data && data[StrKey(key)] != PNull ==> v == data[StrKey(key)]
    ensures StrKey(key) !in data || data[StrKey(key)] == PNull ==> v == default
  {
    if StrKey(key) in data && data[StrKey(key)] != PNull then data[StrKey(key)] else default
  }

  /** `fromArray`: each known key copied verbatim when present and non-null, else its default; other keys ignored. */
  function FromArray(data: Hash): (r: CreateTemplateRequest)
    ensures r.name == Coalesce(data, "name", PString(""))
    ensures r.displayName == Coalesce(data, "displayName", PString(""))
    ensures r.categoryId == Coalesce(data, "categoryId", PString(""))
    ensures r.preview == Coalesce(data, "preview", PArray(map[]))
    ensures r.templateData == Coalesce(data, "templateData", PArray(map[]))
  {
    CreateTemplateRequest(
      Coalesce(data, "name", PString("")),
      Coalesce(data, "displayName", PString("")),
      Coalesce(data, "categoryId", PString("")),
      Coalesce(data, "preview", PArray(map[])),
      Coalesce(data, "templateData", PArray(map[])))
  }

  /** The five keys `fromArray` reads. */
  predicate AgreeOnRequestKeys(a: Hash, b: Hash)
  {
    forall k :: k in ["name", "displayName", "categoryId", "preview", "templateData"] ==>
      (StrKey(k) in a <==> StrKey(k) in b) && (StrKey(k) in a ==> a[StrKey(k)] == b[StrKey(k)])
  }

  /** Keys other than the five request fields never influence the request. */
  lemma FromArrayIgnoresUnknownKeys(a: Hash, b: Hash)
    requires AgreeOnRequestKeys(a, b)
    ensures FromArray(a) == FromArray(b)
  {
    assert "name" in ["name", "displayName", "categoryId", "preview", "templateData"];
    assert "displayName" in ["name", "displayName", "categoryId", "preview", "templateData"];
    assert "categoryId" in ["name", "displayName", "categoryId", "preview", "templateData"];
    assert "preview" in ["name", "displayName", "categoryId", "preview", "templateData"];
    assert "templateData" in ["name", "displayName", "categoryId", "preview", "templateData"];
  }

  /** An empty body yields empty strings and empty arrays. */
  lemma FromArrayEmpty()
    ensures FromArray(map[]) == CreateTemplateRequest(PString(""), PString(""), PString(""), PArray(map[]), PArray(map[]))
  {
  }

  // ------------------------------------------------------------- constraints

  /** One constraint violation: the property path and its message. */
  datatype Violation = Violation(path: string, message: string)

  /** `NotBlank`: `null`, `false`, `""` and `[]` are blank; `"0"`, `0` and everything else are not. */
  predicate Blank(v: Value)
  {
    v == PNull || v == PBool(false) || v == PString("") || v == PArray(map[])
  }

  /** `Length(max: 100)` over a value; an array is a type violation rather than a length. */
  function LengthViolations(path: string, v: Value, tooLong: string): (r: seq<Violation>)
    ensures |r| <= 1
    ensures r == [] <==> !v.PArray? && (v.PString? ==> |v.s| <= MaxLength)
  {
    if v.PArray? then [Violation(path, "This value should be of type string.")]
    else if v.PString? && |v.s| > MaxLength then [Violation(path, tooLong)]
    else []
  }

  const MaxLength := 100

  function NotBlankViolations(path: string, v: Value, message: string): (r: seq<Violation>)
    ensures r == [] <==> !Blank(v)
  {
    if Blank(v) then [Violation(path, message)] else []
  }

  /** `Type('array')`: `null` is skipped, any other non-array is a violation. */
  function ArrayTypeViolations(path: string, v: Value, message: string): (r: seq<Violation>)
    ensures r == [] <==> v.PNull? || v.PArray?
  {
    if v.PNull? || v.PArray? then [] else [Violation(path, message)]
  }

  /** The violations of every declared constraint, in declaration order. */
  function Violations(req: CreateTemplateRequest): (r: seq<Violation>)
    ensures forall i :: 0 <= i < |r| ==>
              r[i].path in {"name", "displayName", "categoryId", "preview", "templateData"}
  {
    NotBlankViolations("name", req.name, "Name is required")
    + LengthViolations("name", req.name, "Name must not exceed 100 characters")
    + NotBlankViolations("displayName", req.displayName, "Display name is required")
    + LengthViolations("displayName", req.displayName, "Display name must not exceed 100 characters")
    + NotBlankViolations("categoryId", req.categoryId, "Category ID is required")
    + ArrayTypeViolations("preview", req.preview, "Preview must be an array")
    + ArrayTypeViolations("templateData", req.templateData, "Template data must be an array")
  }

  /** A request string of at most `MaxLength` characters that is not blank. */
  predicate ShortNonBlank(v: Value)
  {
    !Blank(v) && !v.PArray? && (v.PString? ==> |v.s| <= MaxLength)
  }

  /**
   * The request passes validation exactly when name and display name are
   * non-blank and at most 100 characters, the category id is non-blank, and
   * preview and template data are arrays (or `null`).
   */
  lemma NoViolationsIff(req: CreateTemplateRequest)
    ensures Violations(req) == [] <==>
              && ShortNonBlank(req.name)
              && ShortNonBlank(req.displayName)
              && !Blank(req.categoryId)
              && (req.preview.PNull? || req.preview.PArray?)
              && (req.templateData.PNull? || req.templateData.PArray?)
  {
  }

  /** For string fields and array payloads: valid iff the three strings are non-empty and the two names fit in 100 characters. */
  lemma StringRequestValidity(req: CreateTemplateRequest)
    requires req.name.PString? && req.displayName.PString? && req.categoryId.PString?
    requires req.preview.PArray? && req.templateData.PArray?
    ensures Violations(req) == [] <==>
              && 0 < |req.name.s| <= 100
              && 0 < |req.displayName.s| <= 100
              && |req.categoryId.s| > 0
  {
    NoViolationsIff(req);
  }

  /** The request `fromArray` builds from an empty body fails on name, display name and category id only. */
  lemma EmptyBodyViolations()
    ensures Violations(FromArray(map[])) == [
      Violation("name", "Name is required"),
      Violation("displayName", "Display name is required"),
      Violation("categoryId", "Category ID is required")]
  {
  }

  /** A name of exactly 100 characters fits; one of 101 does not. */
  lemma NameLengthBoundary()
    ensures LengthViolations("name", PString(seq(100, _ => 'a')), "m") == []
    ensures LengthViolations("name", PString(seq(101, _ => 'a')), "m") != []
  {
  }
}
