/** The resource index of the `src/` dashboard
    (src/components/dashboard/OpenNetworks.tsx): the resources are shown in
    one section per category, the categories in order of first appearance,
    each section with an icon, its resources and a count badge. */
module OpenNetworks {
  import opened Sequences

  datatype Resource = Resource(
    id: string,
    name: string,
    description: string,
    url: string,
    category: string,
    tags: seq<string>)

  /** The icon a category block shows. `Inherited(key)` is the member that a
      lookup in the object literal finds on `Object.prototype` instead of an
      own entry; such a member is truthy, so the `|| Globe` fallback does not
      apply to it. */
  datatype Icon = Newspaper | Database | Code | BookOpen | Wrench | Globe | Inherited(key: string)

  const CategoryIcons: map<string, Icon> := map[
    "Free Media" := Newspaper,
    "Research Archives" := Database,
    "Engineering Resources" := Code,
    "Open Libraries" := BookOpen,
    "Developer Tools" := Wrench
  ]

  /** The property names a plain object literal inherits from
      `Object.prototype`; each of them is a function or an object, never
      `undefined`. */
  const ObjectPrototypeKeys: set<string> := {
    "constructor", "hasOwnProperty", "isPrototypeOf", "propertyIsEnumerable",
    "toLocaleString", "toString", "valueOf", "__proto__",
    "__defineGetter__", "__defineSetter__", "__lookupGetter__", "__lookupSetter__"
  }

  /** `categoryIcons[category] || Globe` */
  function IconFor(category: string): (icon: Icon)
    ensures icon == Globe <==> category !in CategoryIcons && category !in ObjectPrototypeKeys
    ensures category in CategoryIcons ==> icon == CategoryIcons[category]
    ensures category !in CategoryIcons && category in ObjectPrototypeKeys ==> icon == Inherited(category)
  {
    if category in CategoryIcons then CategoryIcons[category]
    else if category in ObjectPrototypeKeys then Inherited(category)
    else Globe
  }

  /** A category named like an inherited member does not fall back to Globe. */
  lemma InheritedKeyIsNotGlobe(category: string)
    requires category in ObjectPrototypeKeys
    ensures IconFor(category) == Inherited(category)
  {
    assert category !in CategoryIcons;
  }

  predicate NoDuplicates<T(==)>(s: seq<T>)
  {
    forall i, j :: 0 <= i < j < |s| ==> s[i] != s[j]
  }

  /** Index of the first occurrence of `x` in `s`. */
  function FirstIndex<T(==)>(s: seq<T>, x: T): (k: nat)
    requires x in s
    ensures k < |s| && s[k] == x
    ensures forall i :: 0 <= i < k ==> s[i] != x
  {
    if s[0] == x then 0 else 1 + FirstIndex(s[1..], x)
  }

  /** `Array.from(new Set(s))`: a Set remembers insertion order, and adding a
      value already present changes nothing. */
  function Distinct<T(==)>(s: seq<T>): (r: seq<T>)
    ensures NoDuplicates(r)
    ensures forall i :: 0 <= i < |s| ==> s[i] in r
    ensures forall i :: 0 <= i < |r| ==> r[i] in s
    ensures |r| <= |s|
  {
    if s == [] then []
    else
      var init := s[..|s| - 1];
      var d := Distinct(init);
      assert forall i :: 0 <= i < |s| - 1 ==> s[i] == init[i];
      if s[|s| - 1] in d then d else d + [s[|s| - 1]]
  }

  lemma {:induction false} FirstIndexInPrefix<T>(s: seq<T>, n: nat, x: T)
    requires n <= |s| && x in s[..n]
    ensures FirstIndex(s, x) == FirstIndex(s[..n], x)
  {
    if s[0] != x {
      assert s[..n][1..] == s[1..][..n - 1];
      FirstIndexInPrefix(s[1..], n - 1, x);
    }
  }

  /** The distinct values come out in order of their first occurrence. */
  lemma {:induction false} DistinctKeepsFirstSeenOrder<T>(s: seq<T>)
    ensures forall i, j :: 0 <= i < j < |Distinct(s)| ==> FirstIndex(s, Distinct(s)[i]) < FirstIndex(s, Distinct(s)[j])
  {
    if s != [] {
      var init := s[..|s| - 1];
      var d := Distinct(init);
      var last := s[|s| - 1];
      DistinctKeepsFirstSeenOrder(init);
      assert s[..|s| - 1] == init;
      forall y | y in d
        ensures FirstIndex(s, y) == FirstIndex(init, y)
      {
        FirstIndexInPrefix(s, |s| - 1, y);
      }
      if last !in d {
        assert last !in init;
        forall y | y in d
          ensures FirstIndex(s, y) < FirstIndex(s, last)
        {
          assert FirstIndex(s, last) == |s| - 1;
        }
      }
    }
  }

  function InCategory(category: string): Resource -> bool
  {
    (r: Resource) => r.category == category
  }

  function Categories(rs: seq<Resource>): seq<string>
  {
    Distinct(seq(|rs|, i requires 0 <= i < |rs| => rs[i].category))
  }

  /** The categories: each exactly once, every one that occurs, no other. */
  lemma CategoriesAreTheDistinctCategories(rs: seq<Resource>)
    ensures NoDuplicates(Categories(rs))
    ensures forall i :: 0 <= i < |rs| ==> rs[i].category in Categories(rs)
    ensures forall c :: c in Categories(rs) ==> exists i :: 0 <= i < |rs| && rs[i].category == c
  {
    var names := seq(|rs|, i requires 0 <= i < |rs| => rs[i].category);
    assert forall i :: 0 <= i < |rs| ==> names[i] == rs[i].category;
  }

  /** `networkResources.filter((r) => r.category === category)` */
  function Group(rs: seq<Resource>, category: string): (g: seq<Resource>)
    ensures forall i :: 0 <= i < |g| ==> g[i].category == category && g[i] in rs
    ensures forall i :: 0 <= i < |rs| && rs[i].category == category ==> rs[i] in g
  {
    Filter(rs, InCategory(category))
  }

  /** Grouping keeps list order: the group of a concatenation is the group of
      the first part followed by the group of the second. */
  lemma GroupKeepsOrder(a: seq<Resource>, b: seq<Resource>, category: string)
    ensures Group(a + b, category) == Group(a, category) + Group(b, category)
  {
    FilterAppend(a, b, InCategory(category));
  }

  /** One rendered category block. */
  datatype Section = Section(category: string, icon: Icon, resources: seq<Resource>, count: nat)

  /** The block rendered for one category. */
  function SectionOf(rs: seq<Resource>, category: string): (sec: Section)
    ensures sec.category == category && sec.icon == IconFor(category)
    ensures sec.resources == Group(rs, category) && sec.count == |sec.resources|
  {
    var g := Group(rs, category);
    Section(category, IconFor(category), g, |g|)
  }

  /** `categories.map(...)`: one block per category, in the same order. */
  function SectionsFor(rs: seq<Resource>, cats: seq<string>): (ss: seq<Section>)
    ensures |ss| == |cats|
    ensures forall i :: 0 <= i < |ss| ==> ss[i] == SectionOf(rs, cats[i])
  {
    if cats == [] then [] else [SectionOf(rs, cats[0])] + SectionsFor(rs, cats[1..])
  }

  function Sections(rs: seq<Resource>): seq<Section>
  {
    SectionsFor(rs, Categories(rs))
  }

  /** Sum of the count badges. */
  function BadgeSum(ss: seq<Section>): nat
  {
    if ss == [] then 0 else ss[0].count + BadgeSum(ss[1..])
  }

  /** A resource is listed under exactly one category: its own. */
  lemma ExactlyOneSection(rs: seq<Resource>, i: nat, j: nat)
    requires i < |rs| && j < |Sections(rs)|
    ensures rs[i] in Sections(rs)[j].resources <==> Sections(rs)[j].category == rs[i].category
  {
  }

  /** Sum of the group sizes over a list of categories. */
  function Total(rs: seq<Resource>, cats: seq<string>): nat
  {
    if cats == [] then 0 else |Group(rs, cats[0])| + Total(rs, cats[1..])
  }

  /** How often `x` occurs in `cats`. */
  function Hits(x: string, cats: seq<string>): nat
  {
    if cats == [] then 0 else (if cats[0] == x then 1 else 0) + Hits(x, cats[1..])
  }

  lemma {:induction false} HitsOnce(x: string, cats: seq<string>)
    requires NoDuplicates(cats) && x in cats
    ensures Hits(x, cats) == 1
  {
    if cats[0] == x {
      HitsNone(x, cats[1..]);
    } else {
      HitsOnce(x, cats[1..]);
    }
  }

  lemma {:induction false} HitsNone(x: string, cats: seq<string>)
    requires x !in cats
    ensures Hits(x, cats) == 0
  {
    if cats != [] {
      HitsNone(x, cats[1..]);
    }
  }

  lemma {:induction false} TotalCons(r: Resource, rest: seq<Resource>, cats: seq<string>)
    ensures Total([r] + rest, cats) == Hits(r.category, cats) + Total(rest, cats)
  {
    if cats != [] {
      assert ([r] + rest)[1..] == rest;
      TotalCons(r, rest, cats[1..]);
    }
  }

  /** Grouping by a duplicate-free list holding every category loses and
      repeats nothing. */
  lemma {:induction false} GroupsPartition(rs: seq<Resource>, cats: seq<string>)
    requires NoDuplicates(cats)
    requires forall i :: 0 <= i < |rs| ==> rs[i].category in cats
    ensures Total(rs, cats) == |rs|
  {
    if rs == [] {
      TotalEmpty(cats);
    } else {
      assert rs == [rs[0]] + rs[1..];
      TotalCons(rs[0], rs[1..], cats);
      HitsOnce(rs[0].category, cats);
      GroupsPartition(rs[1..], cats);
    }
  }

  lemma {:induction false} TotalEmpty(cats: seq<string>)
    ensures Total([], cats) == 0
  {
    if cats != [] {
      TotalEmpty(cats[1..]);
    }
  }

  lemma {:induction false} BadgeSumIsTotal(rs: seq<Resource>, cats: seq<string>)
    ensures BadgeSum(SectionsFor(rs, cats)) == Total(rs, cats)
  {
    if cats != [] {
      BadgeSumIsTotal(rs, cats[1..]);
    }
  }

  /** The count badges of all sections add up to the number of resources. */
  lemma BadgesAddUp(rs: seq<Resource>)
    ensures BadgeSum(Sections(rs)) == |rs|
  {
    CategoriesAreTheDistinctCategories(rs);
    GroupsPartition(rs, Categories(rs));
    BadgeSumIsTotal(rs, Categories(rs));
  }

  const NetworkResources: seq<Resource> := [
    Resource("1", "Hacker News", "Tech news aggregator with high signal-to-noise ratio",
             "https://news.ycombinator.com", "Free Media", ["tech", "news", "community"]),
    Resource("2", "Lobsters", "Computing-focused community with invite-only membership",
             "https://lobste.rs", "Free Media", ["programming", "community"]),
    Resource("3", "arXiv", "Open access to 2+ million scientific papers",
             "https://arxiv.org", "Research Archives", ["science", "papers", "academic"]),
    Resource("4", "Internet Archive", "Digital library of Internet sites and cultural artifacts",
             "https://archive.org", "Research Archives", ["archive", "history", "digital"]),
    Resource("5", "MDN Web Docs", "Resources for developers, by developers",
             "https://developer.mozilla.org", "Engineering Resources", ["web", "documentation", "reference"]),
    Resource("6", "System Design Primer", "Learn how to design large-scale systems",
             "https://github.com/donnemartin/system-design-primer", "Engineering Resources", ["system-design", "learning"]),
    Resource("7", "Project Gutenberg", "70,000+ free eBooks",
             "https://www.gutenberg.org", "Open Libraries", ["books", "literature", "free"]),
    Resource("8", "Open Library", "One web page for every book ever published",
             "https://openlibrary.org", "Open Libraries", ["books", "catalog"]),
    Resource("9", "Regex101", "Build, test, and debug regex",
             "https://regex101.com", "Developer Tools", ["regex", "testing", "tools"]),
    Resource("10", "JSON Crack", "Visualize JSON data into graphs",
             "https://jsoncrack.com", "Developer Tools", ["json", "visualization", "tools"])
  ]

  /** Every shipped resource has a mapped category, so the fallback icon is
      never shown for the shipped index. */
  lemma ShippedCategoriesHaveIcons()
    ensures forall i :: 0 <= i < |NetworkResources| ==> IconFor(NetworkResources[i].category) != Globe
  {
    forall i | 0 <= i < |NetworkResources|
      ensures NetworkResources[i].category in CategoryIcons
    {
    }
  }
}
