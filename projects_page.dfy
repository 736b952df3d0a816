/**
 * The portfolio page's tag bar: the tabs offered (`All` and the first distinct tags)
 * and the projects shown under the selected tab.
 */
module ProjectsPage {
  import opened Entities
  import Lists

  const AllTab: string := "All"
  const MaxTabs: nat := 6

  /** `projects.flatMap(p => p.tags)`. */
  function FlatTags(ps: seq<Project>): (r: seq<string>)
    ensures forall k :: 0 <= k < |ps| ==> forall t :: t in ps[k].tags ==> t in r
  {
    if |ps| == 0 then [] else ps[0].tags + FlatTags(ps[1..])
  }

  /** Every flattened tag is a tag of some project. */
  lemma {:induction false} FlatTagsFrom(ps: seq<Project>, t: string)
    requires t in FlatTags(ps)
    ensures exists k :: 0 <= k < |ps| && t in ps[k].tags
  {
    if t !in ps[0].tags {
      FlatTagsFrom(ps[1..], t);
      var k :| 0 <= k < |ps[1..]| && t in ps[1..][k].tags;
      assert t in ps[k + 1].tags;
    }
  }

  /** The place where `x` first occurs in `s`. */
  function FirstIndex(s: seq<string>, x: string): (i: nat)
    requires x in s
    ensures i < |s| && s[i] == x && x !in s[..i]
  {
    if s[0] == x then 0 else 1 + FirstIndex(s[1..], x)
  }

  /** A first occurrence does not move when something is appended. */
  lemma {:induction false} FirstIndexSnoc(s: seq<string>, y: string, x: string)
    requires x in s
    ensures FirstIndex(s + [y], x) == FirstIndex(s, x)
  {
    if s[0] != x {
      assert (s + [y])[1..] == s[1..] + [y];
      FirstIndexSnoc(s[1..], y, x);
    }
  }

  /** `Array.from(new Set(s))`: the distinct elements in the order they first occur. */
  function Dedup(s: seq<string>): (r: seq<string>)
    ensures forall x :: x in r <==> x in s
    ensures forall i, j :: 0 <= i < j < |r| ==> r[i] != r[j]
  {
    if |s| == 0 then []
    else
      var d := Dedup(s[..|s| - 1]);
      assert s == s[..|s| - 1] + [s[|s| - 1]];
      if s[|s| - 1] in d then d else d + [s[|s| - 1]]
  }

  /** The distinct elements come in first-occurrence order. */
  lemma {:induction false} DedupOrder(s: seq<string>)
    ensures forall i, j :: 0 <= i < j < |Dedup(s)| ==>
      FirstIndex(s, Dedup(s)[i]) < FirstIndex(s, Dedup(s)[j])
  {
    if |s| > 0 {
      var init, x := s[..|s| - 1], s[|s| - 1];
      assert s == init + [x];
      DedupOrder(init);
      var d := Dedup(init);
      forall i | 0 <= i < |d| ensures FirstIndex(s, d[i]) == FirstIndex(init, d[i]) && FirstIndex(init, d[i]) < |init| {
        FirstIndexSnoc(init, x, d[i]);
      }
      if x !in d {
        assert x !in init;
        assert FirstIndex(s, x) == |init| by {
          assert s[|init|] == x && s[..|init|] == init;
          assert FirstIndex(s, x) >= |init|;
        }
      }
    }
  }

  /** `['All', ...Array.from(new Set(projects.flatMap(p => p.tags)))].slice(0, 6)`. */
  function AllTags(ps: seq<Project>): (r: seq<string>)
    ensures 1 <= |r| <= MaxTabs && r[0] == AllTab
  {
    var tabs := [AllTab] + Dedup(FlatTags(ps));
    tabs[..if |tabs| < MaxTabs then |tabs| else MaxTabs]
  }

  /** The tabs after `All` are the first distinct tags, each a tag of some project,
      pairwise distinct and in the order they first occur across projects and tags; when
      there are at most five distinct tags, every tag gets a tab. */
  lemma AllTagsSpec(ps: seq<Project>)
    ensures AllTags(ps)[1..] == Dedup(FlatTags(ps))[..|AllTags(ps)| - 1]
    ensures forall i :: 1 <= i < |AllTags(ps)| ==>
      exists k :: 0 <= k < |ps| && AllTags(ps)[i] in ps[k].tags
    ensures forall i, j :: 1 <= i < j < |AllTags(ps)| ==> AllTags(ps)[i] != AllTags(ps)[j]
    ensures forall i, j :: 1 <= i < j < |AllTags(ps)| ==>
      FirstIndex(FlatTags(ps), AllTags(ps)[i]) < FirstIndex(FlatTags(ps), AllTags(ps)[j])
    ensures |Dedup(FlatTags(ps))| < MaxTabs ==>
      forall k, t :: 0 <= k < |ps| && t in ps[k].tags ==> t in AllTags(ps)[1..]
  {
    var flat := FlatTags(ps);
    var d := Dedup(flat);
    var r := AllTags(ps);
    assert r[1..] == d[..|r| - 1];
    forall i | 1 <= i < |r| ensures exists k :: 0 <= k < |ps| && r[i] in ps[k].tags {
      assert r[i] == d[i - 1];
      FlatTagsFrom(ps, r[i]);
    }
    forall i, j | 1 <= i < j < |r| ensures r[i] != r[j] {
      assert r[i] == d[i - 1] && r[j] == d[j - 1];
    }
    DedupOrder(flat);
    forall i, j | 1 <= i < j < |r| ensures FirstIndex(flat, r[i]) < FirstIndex(flat, r[j]) {
      assert r[i] == d[i - 1] && r[j] == d[j - 1];
    }
    if |d| < MaxTabs {
      assert r[1..] == d;
    }
  }

  /** `filter === 'All' ? projects : projects.filter(p => p.tags.includes(filter))`:
      under `All` the list is unchanged; under another tab the projects shown are
      exactly those carrying the tag. */
  function FilterByTag(ps: seq<Project>, filter: string): (r: seq<Project>)
    ensures filter == AllTab ==> r == ps
    ensures filter != AllTab ==> forall i :: 0 <= i < |r| ==> r[i] in ps && filter in r[i].tags
    ensures filter != AllTab ==> forall k :: 0 <= k < |ps| && filter in ps[k].tags ==> ps[k] in r
  {
    if filter == AllTab then ps else Lists.Filter(ps, (p: Project) => filter in p.tags)
  }

  /** Filtering by a tag keeps the projects' order. */
  lemma FilterByTagOrder(a: seq<Project>, b: seq<Project>, filter: string)
    ensures FilterByTag(a + b, filter) == FilterByTag(a, filter) + FilterByTag(b, filter)
  {
    if filter != AllTab {
      Lists.FilterAppend(a, b, (p: Project) => filter in p.tags);
    }
  }

  /** Every tab in the bar shows at least one project. */
  lemma NoEmptyTab(ps: seq<Project>, i: nat)
    requires i < |AllTags(ps)|
    ensures i > 0 ==> |FilterByTag(ps, AllTags(ps)[i])| > 0
    ensures i == 0 ==> FilterByTag(ps, AllTags(ps)[i]) == ps
  {
    if i > 0 {
      var t := AllTags(ps)[i];
      AllTagsSpec(ps);
      var k :| 0 <= k < |ps| && t in ps[k].tags;
      if t != AllTab {
        assert ps[k] in FilterByTag(ps, t);
      }
    }
  }
}
