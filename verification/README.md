# Template catalogue: a Dafny model of the service core

This project models the domain and service layer of a small template-catalogue
API written in PHP (Symfony + Doctrine MongoDB ODM). It covers:

- the two documents, `Template` and `Category`;
- the `PaginatedResult` value;
- the query semantics of `TemplateRepository`;
- the orchestration in `TemplateService`;
- the request object `CreateTemplateRequest`;
- the decision logic of `TemplateController`.

Everything is modelled functionally. Entities and requests are immutable
records. Queries are pure functions over an abstract store. Service and
controller operations return their outcome together with the new document
manager state.

Modules, one per file:

| file | module | models |
|---|---|---|
| `wrappers.dfy` | `Wrappers` | `Option` (PHP `?T`) and `Result` (thrown exceptions) |
| `php.dfy` | `Php` | decoded PHP values, array keys, truthiness of `?string` |
| `documents.dfy` | `Documents` | `Template` and `Category` records, constructors, setters, `updateTimestamp` |
| `links.dfy` | `CategoryLinks` | `addTemplate` / `removeTemplate` over the graph of live objects |
| `pagination.dfy` | `Pagination` | `PaginatedResult` |
| `ordering.dfy` | `Ordering` | the `createdAt` descending sort of the template queries |
| `repository.dfy` | `Repository` | `TemplateRepository` and `CategoryRepository::findById` |
| `request.dfy` | `Request` | `CreateTemplateRequest::fromArray` and its declared constraints |
| `service.dfy` | `Service` | `TemplateService`, the unit of work as a list of pending operations |
| `controller.dfy` | `Controller` | paging clamps, list dispatch and meta, create/delete outcomes |

Modelling choices:

- **Identity.** `Ref` is PHP object identity, the thing `===` and
  `Collection::contains` compare. It is kept apart from `id`, the MongoDB id.
  Id generation is abstracted away: Doctrine's AUTO strategy assigns the
  ObjectId inside `persist()`, but the model leaves `id` as `None` on the
  template `Service.Create` returns.
- **Document manager.** `Service.DocumentManager` pairs the committed `Store`
  with the list of pending `Persist`/`Remove` operations. `create` and `delete`
  only append to that list. Every operation's contract states that the
  committed store is unchanged. Flushing is the controller's decision and shows
  up as a `flushed` flag.
- **Clock and ids.** The clock is a `Time` parameter (a natural number). The
  constructors read the clock twice, once for `createdAt` and once for
  `updatedAt`, so they take two readings. The identity of a freshly
  constructed object is a parameter too.
- **Untyped fields.** The request's properties are untyped in the source. They
  hold any decoded `Value`. A wrong-typed field reaches a typed service
  parameter under `strict_types` and raises a `TypeError`. The model surfaces
  that as `TypeMismatch`, and the controller maps it to status 500.
- **Sort order.** The sort is stable. Templates with equal `createdAt` keep
  their store order; MongoDB leaves that order unspecified.

Behaviour of the source that the model follows as written:

- **The created template has no category.** `new Template($category)` passes
  an argument that the parameterless constructor drops. `Service.Create`
  therefore promises `category == None`. `Service.CreatedTemplateLacksCategory`
  gives a concrete request for which the created template does not carry the
  looked-up category. This contradicts the unit test's assertion
  (tests/Unit/Service/TemplateServiceTest.php:81), which the code does not back.
- **Falsy exclude-id.** `existsByName` uses PHP truthiness on `$excludeId`, so
  `""` and `"0"` exclude nothing (`Repository.FalsyExcludeIgnored`).
- **Falsy category filter.** The controller uses the same truthiness on
  `categoryId`, so `""` and `"0"` list every template
  (`Controller.FalsyCategoryListsAll`).
- **Moving a template leaves a stale link.** `addTemplate` does not detach the
  template from its previous category. It keeps both sides consistent only for
  an unlinked template (`CategoryLinks.AddTemplateKeepsConsistent`). Moving a
  template leaves the old category still listing it
  (`CategoryLinks.AddTemplateLeavesStaleLink`).
- **Name conflicts answer 400.** A name conflict gets the same status as a
  validation failure, not a distinct conflict status (`Controller.CreateStatus`).

## Model

| member | source | states |
|---|---|---|
| `Pagination.TotalPages` | src/Service/PaginatedResult.php:17-20 | the page count is the ceiling of total/limit: the least q with q·limit ≥ total (mirrored for a negative limit); a zero limit is excluded |
| `Pagination.CeilDiv` | src/Service/PaginatedResult.php:19 | integer `ceil(a / b)` is the least integer not below the exact quotient, for either sign of b |
| `Pagination.TotalPagesFormula` | src/Service/PaginatedResult.php:17-20 | for limit ≥ 1 and total ≥ 0 the page count equals (total + limit − 1) div limit |
| `Pagination.TotalPagesZeroIffEmpty` | src/Service/PaginatedResult.php:17-20 | there are zero pages exactly when there are zero items, and never a negative count |
| `Pagination.HasNextIffMoreItems` | src/Service/PaginatedResult.php:22-25 | hasNext holds exactly when page·limit < total, i.e. items lie beyond this page |
| `Pagination.NoNextPageWhenEmpty` | src/Service/PaginatedResult.php:22-25 | with total 0 no page at or after 0 has a next page |
| `Pagination.HasPreviousIgnoresSize` | src/Service/PaginatedResult.php:27-30 | hasPrevious holds iff page ≥ 2, whatever the total, limit and data |
| `Pagination.OffsetOf` | src/Service/PaginatedResult.php:32-35 | the offset plus one limit is page·limit, and it is non-negative from page 1 on |
| `Pagination.Offset` | src/Service/PaginatedResult.php:32-35 | offset + limit = page·limit, and offset ≥ 0 whenever page ≥ 1 |
| `Pagination.OffsetInsideIffPageInRange` | src/Service/PaginatedResult.php:17-35 | a page from 1 on starts inside the listing exactly when it is at most totalPages |
| `Pagination.ToArray` | src/Service/PaginatedResult.php:37-50 | data passes through unchanged; the block holds page, limit, total and the three derived accessors |
| `Pagination.ScenarioFirstOfTwo` | src/Service/PaginatedResult.php:17-30 | 25 items at 20 per page: page 1 of 2, hasNext, no previous |
| `Pagination.ScenarioLastOfThree` | src/Service/PaginatedResult.php:17-30 | 25 items at 10 per page: page 3 of 3, no next, hasPrevious |
| `Documents.NewTemplate` | src/Document/Template.php:42-46 | a fresh template has no id, name or category, empty preview and template data, and createdAt from the first clock reading and updatedAt from the second |
| `Documents.SetName` | src/Document/Template.php:58-63 | sets the name; every other field is unchanged |
| `Documents.SetDisplayName` | src/Document/Template.php:70-75 | sets the display name; every other field is unchanged |
| `Documents.SetCategory` | src/Document/Template.php:82-87 | `None` clears the link and `Some(c)` sets it; nothing else changes |
| `Documents.SetPreview` | src/Document/Template.php:94-99 | stores the preview map as given; nothing else changes |
| `Documents.SetTemplateData` | src/Document/Template.php:106-111 | stores the template-data map as given; nothing else changes |
| `Documents.TouchTemplate` | src/Document/Template.php:123-127 | refreshes updatedAt only |
| `Documents.EditsKeepTimestampOrder` | src/Document/Template.php:42-127 | over any edit sequence ref, id and createdAt never change, and updatedAt ≥ createdAt holds if the clock never reads before creation |
| `Documents.SettersLeaveUpdatedAt` | src/Document/Template.php:58-111 | setters alone never move updatedAt or createdAt |
| `Documents.PreviewRoundTrip` | src/Document/Template.php:89-99 | the preview read back is the one last set, of any nesting, whatever other fields are edited after it |
| `Documents.TemplateDataRoundTrip` | src/Document/Template.php:101-111 | the template data read back is the map last set, whatever other fields are edited after it |
| `Documents.NewCategory` | src/Document/Category.php:40-45 | a fresh category has an empty template collection, no id or name, createdAt from the first clock reading and updatedAt from the second |
| `Documents.SetCategoryName` | src/Document/Category.php:57-62 | sets the category name; nothing else changes |
| `Documents.SetCategoryDisplayName` | src/Document/Category.php:69-74 | sets the category display name; nothing else changes |
| `Documents.TouchCategory` | src/Document/Category.php:112-116 | refreshes the category's updatedAt only |
| `Documents.CategoryEditsKeepTimestampOrder` | src/Document/Category.php:40-116 | over any sequence of setters, collection changes and touches, a category's ref, id and createdAt never change, and updatedAt ≥ createdAt holds if the clock never reads before creation |
| `Documents.NewCategoryEditsKeepTimestampOrder` | src/Document/Category.php:40-45 | a category built from two clock readings taken in order keeps its creation time and updatedAt ≥ createdAt through any edits |
| `CategoryLinks.FirstIndex` | src/Document/Category.php:93 | the position found holds the element, and no earlier position does |
| `CategoryLinks.RemoveFirst` | src/Document/Category.php:93 | a present element loses exactly its first occurrence, the other elements keeping their order (multiset minus one); an absent one leaves the collection unchanged |
| `CategoryLinks.AddTemplate` | src/Document/Category.php:81-89 | a non-member is appended and pointed at this category; a member changes nothing; no other category or template changes |
| `CategoryLinks.RemoveTemplate` | src/Document/Category.php:91-100 | a non-member changes nothing; a member is dropped once, its category cleared only if it was this one; nothing else changes |
| `CategoryLinks.AddTemplateIdempotent` | src/Document/Category.php:83 | adding the same template twice equals adding it once |
| `CategoryLinks.AddTemplateKeepsConsistent` | src/Document/Category.php:81-89 | on a consistent graph, adding an unlinked (or already linked here) template keeps both sides of every link in agreement |
| `CategoryLinks.RemoveTemplateKeepsConsistent` | src/Document/Category.php:91-100 | on a consistent graph, removing a template keeps both sides of every link in agreement |
| `CategoryLinks.AddTemplateLeavesStaleLink` | src/Document/Category.php:81-89 | adding a template linked elsewhere leaves the old category listing it while it points at the new one |
| `Ordering.SortNewestFirst` | src/Repository/TemplateRepository.php:34 | the result is a permutation of the input with createdAt non-increasing |
| `Ordering.ListedInReverseCreationOrder` | src/Repository/TemplateRepository.php:34 | templates created one after another are listed in reverse creation order |
| `Repository.FindById` | src/Repository/TemplateRepository.php:22-25 | returns a stored template with that id, and none exactly when no stored template has it; absence is not an error |
| `Repository.FindCategoryById` | src/Repository/CategoryRepository.php:20-23 | returns a stored category with that id, and none exactly when no stored category has it |
| `Repository.FindByIdFindsStored` | src/Repository/TemplateRepository.php:22-25 | with unique ids, the lookup returns exactly the template stored under that id |
| `Repository.Window` | src/Repository/TemplateRepository.php:32-33 | skip then limit: min(limit, max(0, N − offset)) items, item i being item offset + i |
| `Repository.FindAll` | src/Repository/TemplateRepository.php:27-50 | data is the slice [offset, offset + limit) of the newest-first listing, at most limit long and ordered; total is the number of stored templates |
| `Repository.Referencing` | src/Repository/TemplateRepository.php:57 | keeps exactly the templates whose category reference is the given one, with their multiplicities |
| `Repository.FindByCategory` | src/Repository/TemplateRepository.php:52-75 | data is the slice [offset, offset + limit) of the newest-first listing of the templates that reference the category; each item is stored and references it; total counts those templates |
| `Repository.FindByCategoryAllMatching` | src/Repository/TemplateRepository.php:27-75 | when every stored template references the category, the category listing is the same page as listing everything |
| `Repository.FindByCategoryUnused` | src/Repository/TemplateRepository.php:52-75 | a category no template references lists as no data with total 0 |
| `Repository.CountNamed` | src/Repository/TemplateRepository.php:79-88 | the count is positive exactly when some template has the name and is not the excluded one |
| `Repository.ExistsByName` | src/Repository/TemplateRepository.php:77-89 | true iff some stored template has exactly (case-sensitively) this name and, when excludeId is truthy, an id other than it |
| `Repository.FalsyExcludeIgnored` | src/Repository/TemplateRepository.php:84-86 | a falsy excludeId (`""`, `"0"`, null) gives the same answer as no exclusion |
| `Repository.ExcludeSelf` | src/Repository/TemplateRepository.php:84-86 | excluding its own id, a template whose name nobody else has reports no conflict, though without exclusion it does |
| `Request.Coalesce` | src/Dto/CreateTemplateRequest.php:31-35 | a present non-null key is copied verbatim; a missing or null key yields the default |
| `Request.FromArray` | src/Dto/CreateTemplateRequest.php:28-38 | each field is the coalesced key with defaults `''` for the strings and `[]` for the arrays |
| `Request.FromArrayIgnoresUnknownKeys` | src/Dto/CreateTemplateRequest.php:28-38 | two bodies that agree on the five request keys give the same request |
| `Request.FromArrayEmpty` | src/Dto/CreateTemplateRequest.php:28-38 | an empty body gives empty strings and empty arrays |
| `Request.NotBlankViolations` | src/Dto/CreateTemplateRequest.php:11-20 | a violation is reported exactly when the value is blank (null, false, `''`, `[]`) |
| `Request.LengthViolations` | src/Dto/CreateTemplateRequest.php:12 | no violation exactly when the value is not an array and a string value has at most 100 characters |
| `Request.ArrayTypeViolations` | src/Dto/CreateTemplateRequest.php:22-26 | no violation exactly when the value is an array or null |
| `Request.NoViolationsIff` | src/Dto/CreateTemplateRequest.php:11-26 | no violations iff name and displayName are non-blank and within 100 characters, categoryId is non-blank, and preview/templateData are arrays |
| `Request.StringRequestValidity` | src/Dto/CreateTemplateRequest.php:11-26 | for string fields: valid iff 1 ≤ name, displayName length ≤ 100 and categoryId is non-empty |
| `Request.EmptyBodyViolations` | src/Dto/CreateTemplateRequest.php:11-38 | the request from an empty body fails on name, displayName and categoryId only, in that order |
| `Request.NameLengthBoundary` | src/Dto/CreateTemplateRequest.php:12 | a 100-character name fits the bound and a 101-character name violates it |
| `Service.Message` | src/Service/TemplateService.php:25-32 | the two exception messages carry the conflicting name and the missing category id |
| `Service.Create` | src/Service/TemplateService.php:23-44 | a non-string name fails with a type error before any lookup; a taken name fails with NameConflict after one lookup; a non-string categoryId fails with a type error after that lookup; an unknown category fails with CategoryNotFound after both; a wrong displayName, preview or templateData fails with a type error for that field after both lookups; success needs well-typed fields, copies name, displayName, preview and templateData, leaves the category unset, and stages exactly one persist; failures stage nothing; the store is unchanged |
| `Service.FindById` | src/Service/TemplateService.php:46-49 | exactly the repository's answer |
| `Service.FindAll` | src/Service/TemplateService.php:51-54 | exactly the repository's page |
| `Service.FindByCategory` | src/Service/TemplateService.php:56-64 | an unknown category gives no data and total 0 with page and limit echoed; a known one gives the repository's page |
| `Service.Delete` | src/Service/TemplateService.php:66-69 | appends one staged remove and leaves the committed store unchanged |
| `Service.EmptyCategoryListsEmpty` | src/Service/TemplateService.php:56-64 | a category id with no referencing templates lists as no data with total 0, whether or not the category exists |
| `Service.DuplicateNameWinsOverMissingCategory` | src/Service/TemplateService.php:25-32 | a duplicate name on a nonexistent category reports NameConflict and stages nothing |
| `Service.CreatedTemplateLacksCategory` | src/Service/TemplateService.php:34 | for a valid request against an existing category, the created template does not reference that category |
| `Controller.ClampPage` | src/Controller/TemplateController.php:34 | the page is at least 1, defaults to 1, and keeps any value ≥ 1 |
| `Controller.ClampPerPage` | src/Controller/TemplateController.php:35 | perPage lies in [1, 100], defaults to 20, keeps in-range values and saturates outside |
| `Controller.ClampIdempotent` | src/Controller/TemplateController.php:34-35 | clamping a clamped value changes nothing |
| `Controller.ListResult` | src/Controller/TemplateController.php:37-41 | a truthy categoryId dispatches to the service's category listing, anything else to findAll |
| `Controller.Meta` | src/Controller/TemplateController.php:49-56 | meta holds the result's page, limit, total, totalPages, hasNext and hasPrevious |
| `Controller.List` | src/Controller/TemplateController.php:31-58 | page ≥ 1, perPage in [1, 100], at most perPage items, hasPrevious iff page > 1, hasNext iff page·perPage < total |
| `Controller.FalsyCategoryListsAll` | src/Controller/TemplateController.php:37-41 | `""` and `"0"` as the filter list the same as no filter |
| `Controller.CreateStatus` | src/Controller/TemplateController.php:61-90 | 201 only for a created template, 400 for invalid JSON, validation failures and service rejections, 500 otherwise |
| `Controller.ViolationMap` | src/Controller/TemplateController.php:72-75 | one entry per violated property path, holding that path's last message |
| `Controller.Paths` | src/Controller/TemplateController.php:73-74 | the keys are exactly the property paths of the violations |
| `Controller.CreateAction` | src/Controller/TemplateController.php:61-90 | invalid JSON answers 400 and a body that decodes to a non-array answers 500, both before the service runs; violations answer 400 before the service runs; a service rejection answers with its message and a type error with 500; it flushes exactly when it creates; only a creation stages anything; the returned manager is the state before the flush, since flushing is reduced to a flag |
| `Controller.ValidatedBodyIsWellTyped` | src/Controller/TemplateController.php:69-79 | a validated body with string name, displayName and categoryId reaches the service well typed |
| `Controller.DeleteAction` | src/Controller/TemplateController.php:93-104 | an unknown id answers 404 with nothing staged or flushed; a known one stages its removal, flushes and answers 204 |

## Left out

- Doctrine's query execution and id generation are left out: the store is an abstract sequence of committed documents.
- Flushing the unit of work is left out: it is reduced to the controller's `flushed` flag, and a commit-time uniqueness rejection is not modelled.
- The automatic `PreUpdate` firing is left out: `TouchTemplate` / `TouchCategory` are explicit steps instead.
- The database-level `Unique` constraint on the category name (src/Document/Category.php:15) is not modelled.
- The check-then-act race between `existsByName` and the commit, and all concurrency, are left out: the model is single-threaded.
- JSON decoding is taken as given: the controller receives the decoded value or `None` for undecodable JSON.
- Serializer groups and response objects are left out: responses carry the data, not the rendered JSON.
- The `(int)` casts of query strings are left out: the controller takes already converted integers.
- Float arithmetic is left out: `ceil` over float division is integer ceiling division, exact for all integers, where PHP loses precision beyond 2^53.
- Floats inside `preview` are opaque literals, and the key order of PHP arrays is not modelled (arrays are maps).
- Getters are the record fields. Reading an uninitialised typed property (`name` before `setName`) throws in PHP; in the model the field is `None`.
- `Repository.FindAll`: requires page ≥ 1 and limit ≥ 1. The controller always clamps to that range. MongoDB's own handling of a negative skip or a zero/negative limit is not modelled.
- `Repository.FindByCategory`: requires page ≥ 1 and limit ≥ 1, for the same reason.
- `Service.FindAll`: requires page ≥ 1 and limit ≥ 1, inherited from the repository model.
- `Service.FindByCategory`: requires page ≥ 1 and limit ≥ 1, inherited from the repository model, although the unknown-category branch needs neither.
- `Request.LengthViolations`: non-string scalars (integers, booleans, floats) pass the length check. The validator would stringify them and count the characters.
- `Repository.ExistsByName`: the excluded id is compared as a plain string. Doctrine's conversion of a valid ObjectId string is not modelled.
- `Repository.FindById`: the id is compared with the stored ids as a plain, case-sensitive string. In the source, `find($id)` goes through Doctrine's id type, which turns a valid 24-digit hex string into an ObjectId and accepts upper-case hex. So `"507F1F77BCF86CD799439011"` finds the template stored as `"507f1f77bcf86cd799439011"`, and deleting it answers 204, while in the model the lookup gives `None` and `Controller.DeleteAction` answers 404.
- `Repository.FindCategoryById`: the same plain-string comparison. An upper-case-hex `categoryId` that Doctrine resolves gives `CategoryNotFound` (400) in `Service.Create`, where the source creates the template.
- TemplateFixtures.php, the MongoDB init script and the unit tests are not part of this model.
- `Controller.List`: integers are unbounded. In PHP, `($page - 1) * $perPage` (src/Repository/TemplateRepository.php:29,54; src/Service/PaginatedResult.php:34) becomes a float once it passes PHP_INT_MAX, and under strict types passing it to `skip(int)` or returning it from `getOffset(): int` raises a TypeError, so a request such as `?page=9223372036854775807` answers 500 in the source while the model returns a page.
- `Repository.FindAll`: the same 64-bit overflow of the offset is not modelled; the offset is an unbounded integer.
- `Repository.FindByCategory`: the same 64-bit overflow of the offset is not modelled.
- `Pagination.Offset`: the 64-bit overflow of `getOffset` is not modelled.
- `Service.Create`: the created template's `id` stays `None`; Doctrine assigns the ObjectId during `persist()`, which is not modelled.
