/**
 * The project page: the small markdown renderer used for a project's long description
 * (headings, list items, blank lines and paragraphs with `**bold**` runs), the lookup
 * of the project named in the address, and the view count it triggers.
 */
module ProjectDetail {
  import opened Wrappers
  import opened Entities
  import Text
  import AppStore

  // ----- bold runs: `line.split(/(\*\*.*?\*\*)/g)` -----

  /** Two stars starting at `j`. */
  predicate StarsAt(s: string, j: nat) {
    j + 2 <= |s| && s[j] == '*' && s[j + 1] == '*'
  }

  /** The lazy `.*?\*\*` after an opening `**` that ends just before `k`: the end of the
      shortest run up to a closing `**`, if one comes before any line terminator. */
  function CloseFrom(s: string, k: nat): (r: Option<nat>)
    requires k <= |s|
    decreases |s| - k
    ensures r.Some? ==> k + 2 <= r.value <= |s| && StarsAt(s, r.value - 2)
    ensures r.Some? ==> forall j :: k <= j < r.value - 2 ==> !Text.IsLineTerminator(s[j]) && !StarsAt(s, j)
  {
    if StarsAt(s, k) then Some(k + 2)
    else if k < |s| && !Text.IsLineTerminator(s[k]) then CloseFrom(s, k + 1)
    else None
  }

  /** The end of a match of `\*\*.*?\*\*` that starts at `q`, if there is one. */
  function MatchAt(s: string, q: nat): (r: Option<nat>)
    requires q <= |s|
  {
    if StarsAt(s, q) then CloseFrom(s, q + 2) else None
  }

  /** The splitting loop of `String.prototype.split` with a regular expression whose
      whole match is captured: the piece from `p` to a match, then the match itself,
      scanning on from `q`. */
  function SplitFrom(s: string, p: nat, q: nat): seq<string>
    requires p <= q <= |s|
    decreases |s| - q
  {
    if q == |s| then [s[p..]]
    else
      match MatchAt(s, q)
      case None => SplitFrom(s, p, q + 1)
      case Some(e) => [s[p..q], s[q..e]] + SplitFrom(s, e, e)
  }

  function SplitBold(line: string): seq<string> {
    SplitFrom(line, 0, 0)
  }

  /** The parts one after another. */
  function Concat(parts: seq<string>): string {
    if |parts| == 0 then "" else parts[0] + Concat(parts[1..])
  }

  lemma {:induction false} ConcatAppend(a: seq<string>, b: seq<string>)
    ensures Concat(a + b) == Concat(a) + Concat(b)
  {
    if |a| == 0 {
      assert a + b == b;
    } else {
      assert (a + b)[1..] == a[1..] + b;
      ConcatAppend(a[1..], b);
    }
  }

  /** A matched bold run: `**`, then text with no line terminator and no `**` in it
      (nor a star just before the closing pair), then `**`. */
  predicate IsBoldRun(t: string) {
    && |t| >= 4 && t[..2] == "**" && t[|t| - 2..] == "**"
    && forall j :: 2 <= j < |t| - 2 ==> !Text.IsLineTerminator(t[j]) && !StarsAt(t, j)
  }

  /** A match found by `MatchAt` is a bold run. */
  lemma {:induction false} MatchIsBoldRun(s: string, q: nat, e: nat)
    requires q <= |s| && MatchAt(s, q) == Some(e)
    ensures q + 4 <= e <= |s| && IsBoldRun(s[q..e])
  {
    var t := s[q..e];
    assert t[..2] == s[q..q + 2] == "**";
    assert t[|t| - 2..] == s[e - 2..e] == "**";
    forall j | 2 <= j < |t| - 2 ensures !Text.IsLineTerminator(t[j]) && !StarsAt(t, j) {
      assert t[j] == s[q + j] && t[j + 1] == s[q + j + 1];
    }
  }

  /** The parts a match contributes spell out the piece before it and the match. */
  lemma {:induction false} ConcatStep(s: string, p: nat, q: nat, e: nat, rest: seq<string>)
    requires p <= q <= e <= |s|
    requires Concat(rest) == s[e..]
    ensures Concat([s[p..q], s[q..e]] + rest) == s[p..]
  {
    ConcatAppend([s[p..q], s[q..e]], rest);
    assert Concat([s[p..q], s[q..e]]) == s[p..q] + (s[q..e] + Concat([]));
    assert s[p..] == s[p..q] + s[q..e] + s[e..];
  }

  /** The parts of the line from `e` on, whatever they are, keep the shape once the
      piece before a match and the match are put in front. */
  lemma {:induction false} SplitStep(s: string, p: nat, q: nat, e: nat, rest: seq<string>)
    requires p <= q < |s| && MatchAt(s, q) == Some(e)
    requires Concat(rest) == s[e..] && |rest| % 2 == 1
    requires forall i :: 0 <= i < |rest| && i % 2 == 1 ==> IsBoldRun(rest[i])
    ensures Concat([s[p..q], s[q..e]] + rest) == s[p..]
    ensures |[s[p..q], s[q..e]] + rest| % 2 == 1
    ensures forall i :: 0 <= i < |[s[p..q], s[q..e]] + rest| && i % 2 == 1 ==> IsBoldRun(([s[p..q], s[q..e]] + rest)[i])
  {
    MatchIsBoldRun(s, q, e);
    ConcatStep(s, p, q, e, rest);
    var r := [s[p..q], s[q..e]] + rest;
    forall i | 0 <= i < |r| && i % 2 == 1 ensures IsBoldRun(r[i]) {
      if i > 1 {
        assert r[i] == rest[i - 2];
      }
    }
  }

  /** What the loop produces: the pieces between matches alternate with the matches,
      and together they spell out the rest of the line. */
  lemma {:induction false} SplitFromSpec(s: string, p: nat, q: nat)
    requires p <= q <= |s|
    decreases |s| - q
    ensures Concat(SplitFrom(s, p, q)) == s[p..]
    ensures |SplitFrom(s, p, q)| % 2 == 1
    ensures forall i :: 0 <= i < |SplitFrom(s, p, q)| && i % 2 == 1 ==> IsBoldRun(SplitFrom(s, p, q)[i])
  {
    if q == |s| {
      assert SplitFrom(s, p, q) == [s[p..]];
      assert Concat([s[p..]]) == s[p..] + Concat([]);
    } else {
      match MatchAt(s, q)
      case None =>
        SplitFromSpec(s, p, q + 1);
      case Some(e) =>
        SplitFromSpec(s, e, e);
        SplitStep(s, p, q, e, SplitFrom(s, e, e));
    }
  }

  /** Concatenating the parts of a line gives the line back; the parts alternate between
      plain text and bold runs, starting and ending with plain text. */
  lemma {:induction false} SplitBoldSpec(line: string)
    ensures Concat(SplitBold(line)) == line
    ensures |SplitBold(line)| % 2 == 1
    ensures forall i :: 0 <= i < |SplitBold(line)| && i % 2 == 1 ==> IsBoldRun(SplitBold(line)[i])
  {
    SplitFromSpec(line, 0, 0);
  }

  // ----- rendering -----

  datatype Inline = Plain(text: string) | Strong(text: string)

  /** `part.slice(2, -2)`. */
  function Inner(part: string): string {
    if |part| >= 4 then part[2..|part| - 2] else ""
  }

  /** A part that starts and ends with `**` is shown bold without them. */
  function RenderPart(part: string): (r: Inline)
    ensures (|part| >= 2 && part[..2] == "**" && part[|part| - 2..] == "**") <==> r.Strong?
    ensures r.Plain? ==> r.text == part
  {
    if |part| >= 2 && part[..2] == "**" && part[|part| - 2..] == "**" then Strong(Inner(part)) else Plain(part)
  }

  /** A bold run renders as its inner text, framed by the markers it loses. */
  lemma {:induction false} BoldRunRendersStrong(t: string)
    requires IsBoldRun(t)
    ensures RenderPart(t) == Strong(t[2..|t| - 2])
    ensures "**" + RenderPart(t).text + "**" == t
  {
    assert t == t[..2] + t[2..|t| - 2] + t[|t| - 2..];
  }

  datatype Block =
    | Heading2(text: string)
    | Heading1(text: string)
    | Item(text: string)
    | LineBreak
    | Paragraph(parts: seq<Inline>)

  /** One line, first match wins on the trimmed line. */
  function Classify(line: string): (b: Block)
    ensures b.Heading2? <==> "## " <= Text.Trim(line)
    ensures b.Heading1? <==> !("## " <= Text.Trim(line)) && "# " <= Text.Trim(line)
    ensures b.Item? <==> !("## " <= Text.Trim(line)) && !("# " <= Text.Trim(line)) && "- " <= Text.Trim(line)
    ensures b.LineBreak? <==> Text.Trim(line) == ""
    ensures b.Paragraph? ==> |b.parts| == |SplitBold(line)|
    ensures b.Paragraph? ==> forall i :: 0 <= i < |b.parts| ==> b.parts[i] == RenderPart(SplitBold(line)[i])
  {
    var t := Text.Trim(line);
    if "## " <= t then Heading2(Text.ReplaceFirst(line, "## ", ""))
    else if "# " <= t then Heading1(Text.ReplaceFirst(line, "# ", ""))
    else if "- " <= t then Item(Text.ReplaceFirst(line, "- ", ""))
    else if t == "" then LineBreak
    else
      var parts := SplitBold(line);
      Paragraph(seq(|parts|, i requires 0 <= i < |parts| => RenderPart(parts[i])))
  }

  /** The length of the line's leading whitespace. */
  function Indent(line: string): (n: nat)
    ensures n <= |line| && Text.AllWhitespace(line[..n])
    ensures line[n..] == Text.TrimStart(line)
  {
    |line| - |Text.TrimStart(line)|
  }

  /** A prefix of a prefix of what follows position `n` occurs at `n`. */
  lemma {:induction false} PrefixAfter(line: string, a: string, t: string, n: nat, marker: string)
    requires n <= |line| && line[n..] == a
    requires |t| <= |a| && t == a[..|t|] && marker <= t
    ensures Text.OccursAt(line, marker, n)
  {
    assert line[n..n + |marker|] == a[..|marker|];
  }

  /** A marker at the start of the trimmed line sits right after the indentation. */
  lemma {:induction false} MarkerAtIndent(line: string, marker: string)
    requires marker <= Text.Trim(line)
    ensures Text.OccursAt(line, marker, Indent(line))
  {
    var a := Text.TrimStart(line);
    PrefixAfter(line, a, Text.TrimEnd(a), Indent(line), marker);
  }

  /** Inside whitespace there is no occurrence of a marker that starts with something
      else. */
  lemma {:induction false} NoMarkerInIndent(line: string, marker: string, n: nat)
    requires |marker| > 0 && !Text.IsWhitespace(marker[0])
    requires n <= |line| && Text.AllWhitespace(line[..n])
    ensures forall j :: 0 <= j < n ==> !Text.OccursAt(line, marker, j)
  {
    forall j | 0 <= j < n ensures !Text.OccursAt(line, marker, j) {
      assert line[..n][j] == line[j];
    }
  }

  /** Replacing the first occurrence, when it is at `i`, cuts out the marker there. */
  lemma {:induction false} ReplaceFirstAt(line: string, marker: string, i: nat)
    requires Text.OccursAt(line, marker, i)
    requires forall j :: 0 <= j < i ==> !Text.OccursAt(line, marker, j)
    ensures Text.ReplaceFirst(line, marker, "") == line[..i] + line[i + |marker|..]
  {
    assert Text.IndexOfFrom(line, marker, 0) == Some(i);
  }

  /** A marker found at the start of the trimmed line is removed from there: the
      indentation and what follows the marker are kept. */
  lemma {:induction false} MarkerAfterIndent(line: string, marker: string)
    requires |marker| > 0 && !Text.IsWhitespace(marker[0])
    requires marker <= Text.Trim(line)
    ensures Indent(line) + |marker| <= |line| && line[Indent(line)..Indent(line) + |marker|] == marker
    ensures Text.ReplaceFirst(line, marker, "") == line[..Indent(line)] + line[Indent(line) + |marker|..]
  {
    MarkerAtIndent(line, marker);
    NoMarkerInIndent(line, marker, Indent(line));
    ReplaceFirstAt(line, marker, Indent(line));
  }

  /** The text `Classify` gives a heading or list item. */
  lemma {:induction false} ClassifiedText(line: string)
    ensures Classify(line).Heading2? ==> Classify(line).text == Text.ReplaceFirst(line, "## ", "")
    ensures Classify(line).Heading1? ==> Classify(line).text == Text.ReplaceFirst(line, "# ", "")
    ensures Classify(line).Item? ==> Classify(line).text == Text.ReplaceFirst(line, "- ", "")
  {
  }

  /** The text of a line classified by `marker` is the line with the marker cut out
      after the indentation. */
  lemma {:induction false} CutAfterIndent(line: string, marker: string, text: string)
    requires |marker| > 0 && !Text.IsWhitespace(marker[0])
    requires marker <= Text.Trim(line)
    requires text == Text.ReplaceFirst(line, marker, "")
    ensures Indent(line) + |marker| <= |line| && line[Indent(line)..Indent(line) + |marker|] == marker
    ensures text == line[..Indent(line)] + line[Indent(line) + |marker|..]
  {
    MarkerAfterIndent(line, marker);
  }

  /** Heading and list text is the line with its marker cut out after the indentation. */
  lemma {:induction false} MarkerRemoved(line: string)
    ensures Classify(line).Heading2? ==> (Indent(line) + 3 <= |line| && line[Indent(line)..Indent(line) + 3] == "## "
      && Classify(line).text == line[..Indent(line)] + line[Indent(line) + 3..])
    ensures Classify(line).Heading1? ==> (Indent(line) + 2 <= |line| && line[Indent(line)..Indent(line) + 2] == "# "
      && Classify(line).text == line[..Indent(line)] + line[Indent(line) + 2..])
    ensures Classify(line).Item? ==> (Indent(line) + 2 <= |line| && line[Indent(line)..Indent(line) + 2] == "- "
      && Classify(line).text == line[..Indent(line)] + line[Indent(line) + 2..])
  {
    var b := Classify(line);
    ClassifiedText(line);
    if b.Heading2? {
      CutAfterIndent(line, "## ", b.text);
    } else if b.Heading1? {
      CutAfterIndent(line, "# ", b.text);
    } else if b.Item? {
      CutAfterIndent(line, "- ", b.text);
    }
  }

  /** `SimpleMarkdown`: nothing for empty text, otherwise one block per line. */
  function Render(text: string): Option<seq<Block>> {
    if text == "" then None
    else
      var lines := Text.Split(text, '\n');
      Some(seq(|lines|, i requires 0 <= i < |lines| => Classify(lines[i])))
  }

  /** Empty text renders nothing; any other text renders exactly one block per line, in
      order, and the lines joined with newlines give the text back. */
  lemma {:induction false} RenderSpec(text: string)
    ensures text == "" <==> Render(text).None?
    ensures text != "" ==> var lines := Text.Split(text, '\n');
      && |Render(text).value| == |lines|
      && (forall i :: 0 <= i < |lines| ==> Render(text).value[i] == Classify(lines[i]) && '\n' !in lines[i])
      && Text.Join(lines, "\n") == text
  {
    Text.JoinSplit(text, '\n');
    assert ['\n'] == "\n";
  }

  // ----- the page -----

  /** The ids whose view count one run of the page's effect asks to raise: the route id,
      when it is non-empty and names a project. */
  function ViewRequests(ps: seq<Project>, id: string): (r: seq<string>)
    ensures |r| <= 1
    ensures |r| == 1 <==> |id| > 0 && exists k :: 0 <= k < |ps| && ps[k].id == id
    ensures forall i :: 0 <= i < |r| ==> r[i] == id
  {
    if |id| > 0 && AppStore.FindById(ps, AppStore.ProjectId, id).Some? then [id] else []
  }

  /** `n` successive runs of `incrementProjectView` on one id. */
  function RaiseViews(ps: seq<Project>, id: string, n: nat): (r: seq<Project>)
    ensures |r| == |ps|
    decreases n
  {
    if n == 0 then ps else RaiseViews(AppStore.IncrementViews(ps, id), id, n - 1)
  }

  /** The effect as written runs again whenever `project` or `onViewProject` is a new
      value. Each run raises the count through `incrementProjectView`, which puts a new
      object in place of the viewed project and re-renders the app, and that render also
      makes a new callback. The raised project is still found, so every run is followed
      by another. `runs` is how many of those runs are followed. */
  function ViewedAsWritten(ps: seq<Project>, id: string, runs: nat): seq<Project> {
    if |ViewRequests(ps, id)| == 0 then ps else RaiseViews(ps, id, runs)
  }

  /** As written, the count of a viewed project rises once per run of the effect, without
      bound, and not once per visit. */
  lemma {:induction false} RaiseViewsCounts(ps: seq<Project>, id: string, n: nat)
    ensures forall k :: 0 <= k < |ps| && ps[k].id == id ==>
      RaiseViews(ps, id, n)[k].views == ps[k].views + n
    decreases n
  {
    if n > 0 {
      var qs := AppStore.IncrementViews(ps, id);
      RaiseViewsCounts(qs, id, n - 1);
      forall j | 0 <= j < |ps| && ps[j].id == id
        ensures RaiseViews(ps, id, n)[j].views == ps[j].views + n
      {
        assert qs[j].id == id;
      }
    }
  }

  /** A recorded view keeps the project in the list, so the effect's next run asks again. */
  lemma IncrementKeepsRequest(ps: seq<Project>, id: string)
    requires |ViewRequests(ps, id)| == 1
    ensures |ViewRequests(AppStore.IncrementViews(ps, id), id)| == 1
  {
    var k :| 0 <= k < |ps| && ps[k].id == id;
    assert AppStore.IncrementViews(ps, id)[k].id == id;
  }

  /** As written, each followed run of the effect adds one more view to the viewed project. */
  lemma ViewsRaisedEveryRun(ps: seq<Project>, id: string, runs: nat)
    requires |ViewRequests(ps, id)| == 1
    ensures forall k :: 0 <= k < |ps| && ps[k].id == id ==>
      ViewedAsWritten(ps, id, runs)[k].views == ps[k].views + runs
  {
    RaiseViewsCounts(ps, id, runs);
  }

  /** The visit the effect evidently means to record, as an effect that runs once per
      route id would: the viewed project gains exactly one view, and nothing else
      changes. */
  function ViewedOnce(ps: seq<Project>, id: string): (r: seq<Project>)
    ensures |r| == |ps|
    ensures forall k :: 0 <= k < |ps| && ps[k].id != id ==> r[k] == ps[k]
    ensures forall k :: 0 <= k < |ps| && ps[k].id == id && |id| > 0 ==>
      r[k].views == ps[k].views + 1 && r[k].(views := ps[k].views) == ps[k]
    ensures |id| == 0 ==> r == ps
  {
    if |ViewRequests(ps, id)| == 1 then AppStore.IncrementViews(ps, id) else ps
  }

  /** One project with id "1" and no views: after two runs of the effect as written it
      shows two views, where the visit records one. The first run alone agrees with the
      corrected page. */
  lemma ViewedAsWrittenCounterexample()
    ensures var ps := [Project("1", "", "", None, None, None, "", [], [], None, "", Published, 0)];
      ViewedAsWritten(ps, "1", 2)[0].views == 2 && ViewedOnce(ps, "1")[0].views == 1
      && ViewedAsWritten(ps, "1", 1) == ViewedOnce(ps, "1")
  {
    var ps := [Project("1", "", "", None, None, None, "", [], [], None, "", Published, 0)];
    assert |ViewRequests(ps, "1")| == 1 by { assert ps[0].id == "1"; }
    ViewsRaisedEveryRun(ps, "1", 2);
    assert RaiseViews(ps, "1", 1) == AppStore.IncrementViews(ps, "1");
  }
}
