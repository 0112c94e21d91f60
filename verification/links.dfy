/**
 * Category's `addTemplate` / `removeTemplate`, which maintain both sides of the
 * Category <-> Template link. PHP objects are shared by reference, so the
 * operations are modelled over the graph of live objects keyed by identity.
 */
module CategoryLinks {
  import opened Wrappers
  import opened Documents

  /** The live Template and Category objects, keyed by object identity. */
  datatype Graph = Graph(templates: map<Ref, Template>, categories: map<Ref, Category>)

  /** No identity occurs twice in the collection. */
  ghost predicate NoDuplicates(s: seq<Ref>)
  {
    forall x :: multiset(s)[x] <= 1
  }

  /** Every template a category lists points back at that category. */
  ghost predicate ListedPointBack(g: Graph)
  {
    forall c, t :: c in g.categories && t in g.categories[c].templates ==>
      t in g.templates && g.templates[t].category == Some(c)
  }

  /** Every template that points at a category is listed by it. */
  ghost predicate PointersListed(g: Graph)
  {
    forall t :: t in g.templates && g.templates[t].category.Some? ==>
      g.templates[t].category.value in g.categories &&
      t in g.categories[g.templates[t].category.value].templates
  }

  /** No category lists a template twice. */
  ghost predicate CollectionsDistinct(g: Graph)
  {
    forall c :: c in g.categories ==> NoDuplicates(g.categories[c].templates)
  }

  /**
   * Both sides of every link agree: a category lists exactly the templates that
   * point at it, each once.
   */
  ghost predicate Consistent(g: Graph)
  {
    ListedPointBack(g) && PointersListed(g) && CollectionsDistinct(g)
  }

  /** `array_search` with strict comparison: the position of the first occurrence of `x`. */
  function FirstIndex(s: seq<Ref>, x: Ref): (k: nat)
    requires x in s
    ensures k < |s| && s[k] == x && x !in s[..k]
  {
    if s[0] == x then 0
    else
      assert x in s[1..] by { assert s == [s[0]] + s[1..]; }
      var k := FirstIndex(s[1..], x);
      assert s[..k + 1] == [s[0]] + s[1..][..k];
      k + 1
  }

  /**
   * `ArrayCollection::removeElement`: `array_search` for the first occurrence of
   * `x`, then `unset` of that position; every other element keeps its order.
   */
  function RemoveFirst(s: seq<Ref>, x: Ref): (r: seq<Ref>)
    ensures x !in s ==> r == s
    ensures x in s ==> |r| == |s| - 1
    ensures x in s ==> r == s[..FirstIndex(s, x)] + s[FirstIndex(s, x) + 1..]
    ensures multiset(r) == multiset(s) - multiset{x}
  {
    if x !in s then s
    else
      var k := FirstIndex(s, x);
      RemoveAtMultiset(s, k);
      s[..k] + s[k + 1..]
  }

  /** Dropping position `k` removes exactly one copy of `s[k]` from the multiset. */
  lemma RemoveAtMultiset(s: seq<Ref>, k: nat)
    requires k < |s|
    ensures multiset(s[..k] + s[k + 1..]) == multiset(s) - multiset{s[k]}
  {
    assert s == s[..k] + [s[k]] + s[k + 1..];
  }

  /**
   * `Category::addTemplate`: a template not yet in the collection is appended and
   * pointed at this category; a member is left alone. No other object changes,
   * and a previous category that still lists the template keeps it.
   */
  function AddTemplate(g: Graph, c: Ref, t: Ref): (r: Graph)
    requires c in g.categories && t in g.templates
    ensures r.templates.Keys == g.templates.Keys && r.categories.Keys == g.categories.Keys
    ensures t in r.categories[c].templates
    ensures t in g.categories[c].templates ==> r == g
    ensures t !in g.categories[c].templates ==>
              && r.categories[c] == g.categories[c].(templates := g.categories[c].templates + [t])
              && r.templates[t] == g.templates[t].(category := Some(c))
    ensures forall c' :: c' in g.categories && c' != c ==> r.categories[c'] == g.categories[c']
    ensures forall t' :: t' in g.templates && t' != t ==> r.templates[t'] == g.templates[t']
  {
    var cat := g.categories[c];
    if t in cat.templates then g
    else
      Graph(g.templates[t := SetCategory(g.templates[t], Some(c))],
            g.categories[c := cat.(templates := cat.templates + [t])])
  }

  /**
   * `Category::removeTemplate`: a non-member changes nothing; a member's first
   * occurrence is dropped, and its `category` is cleared only if it pointed at
   * this category.
   */
  function RemoveTemplate(g: Graph, c: Ref, t: Ref): (r: Graph)
    requires c in g.categories && t in g.templates
    ensures r.templates.Keys == g.templates.Keys && r.categories.Keys == g.categories.Keys
    ensures t !in g.categories[c].templates ==> r == g
    ensures t in g.categories[c].templates ==>
              && r.categories[c] == g.categories[c].(templates := RemoveFirst(g.categories[c].templates, t))
              && |r.categories[c].templates| == |g.categories[c].templates| - 1
    ensures t in g.categories[c].templates && g.templates[t].category == Some(c) ==>
              r.templates[t] == g.templates[t].(category := None)
    ensures g.templates[t].category != Some(c) ==> r.templates[t] == g.templates[t]
    ensures forall c' :: c' in g.categories && c' != c ==> r.categories[c'] == g.categories[c']
    ensures forall t' :: t' in g.templates && t' != t ==> r.templates[t'] == g.templates[t']
  {
    var cat := g.categories[c];
    if t !in cat.templates then g
    else
      var categories := g.categories[c := cat.(templates := RemoveFirst(cat.templates, t))];
      if g.templates[t].category == Some(c) then
        Graph(g.templates[t := SetCategory(g.templates[t], None)], categories)
      else
        Graph(g.templates, categories)
  }

  /** Adding a template twice is the same as adding it once. */
  lemma AddTemplateIdempotent(g: Graph, c: Ref, t: Ref)
    requires c in g.categories && t in g.templates
    ensures AddTemplate(AddTemplate(g, c, t), c, t) == AddTemplate(g, c, t)
  {
  }

  /** Adding an unlinked template (or re-adding one already linked here) keeps both sides in agreement. */
  lemma AddTemplateKeepsConsistent(g: Graph, c: Ref, t: Ref)
    requires Consistent(g)
    requires c in g.categories && t in g.templates
    requires g.templates[t].category == None || g.templates[t].category == Some(c)
    ensures Consistent(AddTemplate(g, c, t))
  {
    var cat := g.categories[c];
    if t !in cat.templates {
      var r := AddTemplate(g, c, t);
      assert g.templates[t].category == None;
      forall c', t' | c' in r.categories && t' in r.categories[c'].templates
        ensures t' in r.templates && r.templates[t'].category == Some(c')
      {
        if c' == c && t' == t {
        } else if c' == c {
          assert t' in cat.templates;
        } else {
          assert t' in g.categories[c'].templates;
          assert t' != t;
        }
      }
      forall c' | c' in r.categories
        ensures NoDuplicates(r.categories[c'].templates)
      {
        if c' == c {
          assert multiset(cat.templates)[t] == 0;
          assert multiset(r.categories[c].templates) == multiset(cat.templates) + multiset{t};
        }
      }
    }
  }

  /** Removing a template through its category keeps both sides in agreement. */
  lemma RemoveTemplateKeepsConsistent(g: Graph, c: Ref, t: Ref)
    requires Consistent(g)
    requires c in g.categories && t in g.templates
    ensures Consistent(RemoveTemplate(g, c, t))
  {
    if t in g.categories[c].templates {
      RemoveKeepsListedPointBack(g, c, t);
      RemoveKeepsPointersListed(g, c, t);
      RemoveKeepsCollectionsDistinct(g, c, t);
    }
  }

  /** After removing a listed `t`, the category's collection no longer holds it. */
  lemma RemovedIsGone(g: Graph, c: Ref, t: Ref)
    requires CollectionsDistinct(g)
    requires c in g.categories && t in g.categories[c].templates
    ensures t !in RemoveFirst(g.categories[c].templates, t)
  {
    var s := g.categories[c].templates;
    assert NoDuplicates(s);
    assert multiset(s)[t] == 1;
    assert multiset(RemoveFirst(s, t))[t] == 0;
  }

  lemma RemoveKeepsListedPointBack(g: Graph, c: Ref, t: Ref)
    requires Consistent(g)
    requires c in g.categories && t in g.templates && t in g.categories[c].templates
    ensures ListedPointBack(RemoveTemplate(g, c, t))
  {
    var r := RemoveTemplate(g, c, t);
    var rest := RemoveFirst(g.categories[c].templates, t);
    RemovedIsGone(g, c, t);
    assert g.templates[t].category == Some(c);
    forall c', t' | c' in r.categories && t' in r.categories[c'].templates
      ensures t' in r.templates && r.templates[t'].category == Some(c')
    {
      if c' == c {
        assert multiset(rest)[t'] > 0;
        assert t' in g.categories[c].templates;
      } else {
        assert t' in g.categories[c'].templates;
      }
    }
  }

  lemma RemoveKeepsPointersListed(g: Graph, c: Ref, t: Ref)
    requires Consistent(g)
    requires c in g.categories && t in g.templates && t in g.categories[c].templates
    ensures PointersListed(RemoveTemplate(g, c, t))
  {
    var r := RemoveTemplate(g, c, t);
    var rest := RemoveFirst(g.categories[c].templates, t);
    assert g.templates[t].category == Some(c);
    forall t' | t' in r.templates && r.templates[t'].category.Some?
      ensures r.templates[t'].category.value in r.categories
      ensures t' in r.categories[r.templates[t'].category.value].templates
    {
      if t' != t && r.templates[t'].category.value == c {
        assert t' in g.categories[c].templates;
        assert multiset(rest)[t'] == multiset(g.categories[c].templates)[t'];
      }
    }
  }

  lemma RemoveKeepsCollectionsDistinct(g: Graph, c: Ref, t: Ref)
    requires Consistent(g)
    requires c in g.categories && t in g.templates && t in g.categories[c].templates
    ensures CollectionsDistinct(RemoveTemplate(g, c, t))
  {
    var r := RemoveTemplate(g, c, t);
    forall c' | c' in r.categories
      ensures NoDuplicates(r.categories[c'].templates)
    {
      if c' == c {
        assert NoDuplicates(g.categories[c].templates);
      } else {
        assert NoDuplicates(g.categories[c'].templates);
      }
    }
  }

  /** The graph of one category holding one template, both sides linked, plus a second empty category. */
  function LinkedPair(): (g: Graph)
    ensures Consistent(g)
  {
    var t := NewTemplate(0, 0, 0).(category := Some(0));
    var c0 := NewCategory(0, 0, 0).(templates := [0]);
    var c1 := NewCategory(1, 0, 0);
    Graph(map[0 := t], map[0 := c0, 1 := c1])
  }

  /**
   * Moving a template by calling `addTemplate` on a new category does not detach
   * it from the old one: the old category still lists it while it points at the
   * new one.
   */
  lemma AddTemplateLeavesStaleLink()
    ensures Consistent(LinkedPair())
    ensures !Consistent(AddTemplate(LinkedPair(), 1, 0))
    ensures 0 in AddTemplate(LinkedPair(), 1, 0).categories[0].templates
    ensures AddTemplate(LinkedPair(), 1, 0).templates[0].category == Some(1)
  {
    var r := AddTemplate(LinkedPair(), 1, 0);
    assert 0 in r.categories[0].templates;
    assert r.templates[0].category != Some(0);
  }
}
