/**
 * The project editor: the form's fields, how they are filled from a project being
 * edited, the edits to the link list, the AI enhancement step, and the project the
 * form submits.
 */
module ProjectForm {
  import opened Wrappers
  import opened Entities
  import Text
  import Lists

  // ----- tags -----

  /** `parts.map(t => t.trim())`. */
  function TrimAll(parts: seq<string>): seq<string> {
    Lists.Map(parts, Text.Trim)
  }

  /** `tags.split(',').map(t => t.trim()).filter(t => t.length > 0)`. */
  function ParseTags(s: string): seq<string> {
    Lists.Filter(TrimAll(Text.Split(s, ',')), (t: string) => |t| > 0)
  }

  /** A tag as the editor keeps it: non-empty, trimmed and free of commas. */
  predicate WellFormedTag(t: string) {
    |t| > 0 && Text.IsTrimmed(t) && ',' !in t
  }

  /** Trimming keeps a string free of commas. */
  lemma TrimKeepsCommaFree(piece: string)
    requires ',' !in piece
    ensures ',' !in Text.Trim(piece) && Text.IsTrimmed(Text.Trim(piece))
  {
    Text.TrimSpec(piece);
    var a, b :| 0 <= a <= b <= |piece| && Text.Trim(piece) == piece[a..b];
    assert forall c :: c in piece[a..b] ==> c in piece;
  }

  /** Every parsed tag is non-empty, trimmed and comma-free. */
  lemma ParsedTagsWellFormed(s: string)
    ensures forall i :: 0 <= i < |ParseTags(s)| ==> WellFormedTag(ParseTags(s)[i])
  {
    var pieces := Text.Split(s, ',');
    var trimmed := TrimAll(pieces);
    forall j | 0 <= j < |trimmed| ensures ',' !in trimmed[j] && Text.IsTrimmed(trimmed[j]) {
      Lists.MapAt(pieces, Text.Trim, j);
      TrimKeepsCommaFree(pieces[j]);
    }
    forall i | 0 <= i < |ParseTags(s)| ensures WellFormedTag(ParseTags(s)[i]) {
      assert ParseTags(s)[i] in trimmed;
    }
  }

  /** Splitting around a separator is splitting each side. */
  lemma {:induction false} SplitAround(a: string, b: string, c: char)
    ensures Text.Split(a + [c] + b, c) == Text.Split(a, c) + Text.Split(b, c)
  {
    if |a| == 0 {
      assert a + [c] + b == [c] + b;
      assert ([c] + b)[1..] == b;
    } else {
      assert (a + [c] + b)[0] == a[0];
      assert (a + [c] + b)[1..] == a[1..] + [c] + b;
      SplitAround(a[1..], b, c);
    }
  }

  /** Tags keep their order: the tags of two comma-joined fields are the tags of the
      first followed by those of the second. */
  lemma ParseTagsConcat(a: string, b: string)
    ensures ParseTags(a + "," + b) == ParseTags(a) + ParseTags(b)
  {
    SplitAround(a, b, ',');
    var pa, pb := Text.Split(a, ','), Text.Split(b, ',');
    Lists.MapAppend(pa, pb, Text.Trim);
    Lists.FilterAppend(TrimAll(pa), TrimAll(pb), (t: string) => |t| > 0);
  }

  /** A well-formed tag trims to itself, with or without the space `join` puts before it. */
  lemma {:induction false} TrimTag(t: string)
    requires WellFormedTag(t)
    ensures Text.Trim(t) == t && Text.Trim(" " + t) == t
  {
    Text.TrimPadded("", t, "");
    assert "" + t + "" == t;
    Text.TrimPadded(" ", t, "");
    assert " " + t + "" == " " + t;
  }

  /** A piece that is a tag behind a space trims to that tag. */
  lemma {:induction false} TrimSpacedPiece(pieces: seq<string>, tags: seq<string>, i: nat)
    requires i < |pieces| && i < |tags|
    requires WellFormedTag(tags[i])
    requires pieces[i] == " " + tags[i]
    ensures Text.Trim(pieces[i]) == tags[i]
  {
    TrimTag(tags[i]);
  }

  /** The first tag, then every later tag behind a space, trim back to the tags. */
  lemma {:induction false} TrimPaddedTags(pieces: seq<string>, tags: seq<string>)
    requires |pieces| == |tags| > 0
    requires forall i :: 0 <= i < |tags| ==> WellFormedTag(tags[i])
    requires pieces[0] == tags[0]
    requires forall i :: 1 <= i < |tags| ==> pieces[i] == " " + tags[i]
    ensures TrimAll(pieces) == tags
  {
    forall i | 0 <= i < |pieces| ensures Text.Trim(pieces[i]) == tags[i] {
      if i == 0 {
        TrimTag(tags[0]);
      } else {
        TrimSpacedPiece(pieces, tags, i);
      }
    }
    Lists.MapPointwise(pieces, Text.Trim, tags);
  }

  /** The pieces of joined tags trim back to the tags. */
  lemma {:induction false} JoinedPiecesTrim(tags: seq<string>)
    requires |tags| > 0
    requires forall i :: 0 <= i < |tags| ==> WellFormedTag(tags[i])
    ensures TrimAll(Text.Split(Text.Join(tags, ", "), ',')) == tags
  {
    assert [','] + " " == ", ";
    forall i | 0 <= i < |tags| ensures ',' !in tags[i] {
    }
    Text.SplitJoinPadded(tags, ',', " ");
    TrimPaddedTags(Text.Split(Text.Join(tags, ", "), ','), tags);
  }

  /** Showing tags joined with `", "` and parsing them back gives the same tags. */
  lemma {:induction false} TagsRoundTrip(tags: seq<string>)
    requires forall i :: 0 <= i < |tags| ==> WellFormedTag(tags[i])
    ensures ParseTags(Text.Join(tags, ", ")) == tags
  {
    if |tags| == 0 {
      assert Text.Split("", ',') == [""];
      assert Text.Trim("") == "";
      assert TrimAll([""]) == [""];
    } else {
      JoinedPiecesTrim(tags);
      Lists.FilterAll(tags, (t: string) => |t| > 0);
    }
  }

  // ----- links -----

  /** `links.filter(l => l.label && l.url)`. */
  function SavedLinks(ls: seq<LinkItem>): seq<LinkItem> {
    Lists.Filter(ls, (l: LinkItem) => |l.caption| > 0 && |l.url| > 0)
  }

  /** The saved links are exactly the complete entries, in order. */
  lemma SavedLinksSpec(ls: seq<LinkItem>)
    ensures forall i :: 0 <= i < |SavedLinks(ls)| ==>
      SavedLinks(ls)[i] in ls && |SavedLinks(ls)[i].caption| > 0 && |SavedLinks(ls)[i].url| > 0
    ensures forall i :: 0 <= i < |ls| && |ls[i].caption| > 0 && |ls[i].url| > 0 ==> ls[i] in SavedLinks(ls)
    ensures (forall i :: 0 <= i < |ls| ==> |ls[i].caption| > 0 && |ls[i].url| > 0) ==> SavedLinks(ls) == ls
  {
    if forall i :: 0 <= i < |ls| ==> |ls[i].caption| > 0 && |ls[i].url| > 0 {
      Lists.FilterAll(ls, (l: LinkItem) => |l.caption| > 0 && |l.url| > 0);
    }
  }

  /** `[...links, { label: '', url: '' }]`. */
  function AddLink(ls: seq<LinkItem>): seq<LinkItem> {
    ls + [LinkItem("", "")]
  }

  /** `links.filter((_, i) => i !== index)`. */
  function RemoveLink(ls: seq<LinkItem>, index: int): (r: seq<LinkItem>)
    ensures 0 <= index < |ls| ==> |r| == |ls| - 1
    ensures 0 <= index < |ls| ==> forall j :: 0 <= j < |r| ==> r[j] == if j < index then ls[j] else ls[j + 1]
    ensures !(0 <= index < |ls|) ==> r == ls
  {
    if 0 <= index < |ls| then ls[..index] + ls[index + 1..] else ls
  }

  datatype LinkField = Caption | Url

  /** `newLinks[index] = { ...newLinks[index], [field]: value }` on a copy. */
  function UpdateLink(ls: seq<LinkItem>, index: nat, field: LinkField, v: string): (r: seq<LinkItem>)
    requires index < |ls|
    ensures |r| == |ls|
    ensures forall j :: 0 <= j < |ls| && j != index ==> r[j] == ls[j]
    ensures field == Caption ==> r[index].caption == v && r[index].url == ls[index].url
    ensures field == Url ==> r[index].url == v && r[index].caption == ls[index].caption
  {
    ls[index := match field
                case Caption => ls[index].(caption := v)
                case Url => ls[index].(url := v)]
  }

  /** An added link that is removed again leaves the list as it was, and an added link
      left empty is not saved. */
  lemma AddLinkUndone(ls: seq<LinkItem>)
    ensures RemoveLink(AddLink(ls), |ls|) == ls
    ensures SavedLinks(AddLink(ls)) == SavedLinks(ls)
  {
    var keep := (l: LinkItem) => |l.caption| > 0 && |l.url| > 0;
    Lists.FilterAppend(ls, [LinkItem("", "")], keep);
    assert Lists.Filter([LinkItem("", "")], keep) == [];
  }

  // ----- the form -----

  datatype FormFields = FormFields(
    title: string,
    description: string,
    longDescription: string,
    client: string,
    role: string,
    imageUrl: string,
    tags: string,
    status: ProjectStatus,
    links: seq<LinkItem>)

  function EmptyForm(): FormFields {
    FormFields("", "", "", "", "", "", "", Draft, [])
  }

  /** The fields loaded from the project being edited. */
  function FormFor(p: Project): FormFields {
    FormFields(p.title, p.description, p.longDescription.GetOr(""), p.client.GetOr(""), p.role.GetOr(""),
               p.imageUrl, Text.Join(p.tags, ", "), p.status, p.links)
  }

  /** The cover used when none was chosen. */
  function PlaceholderImage(now: nat): string {
    "https://picsum.photos/800/600?random=" + Text.DecimalString(now)
  }

  /** `handleSubmit`: the project the form saves. An edited project keeps its id, date
      and views; a new one gets the time as its id and date and no views. The cover is
      never empty, tags are parsed, only complete links are kept, and `link` is not
      carried over. */
  function BuildProject(f: FormFields, initial: Option<Project>, now: nat, nowIso: string): (p: Project)
    ensures initial.Some? ==> p.id == initial.value.id && p.date == initial.value.date && p.views == initial.value.views
    ensures initial.None? ==> p.id == Text.DecimalString(now) && p.date == nowIso && p.views == 0
    ensures p.imageUrl != ""
    ensures p.imageUrl == if f.imageUrl == "" then PlaceholderImage(now) else f.imageUrl
    ensures p.title == f.title && p.description == f.description && p.status == f.status
    ensures p.longDescription == Some(f.longDescription) && p.client == Some(f.client) && p.role == Some(f.role)
    ensures p.tags == ParseTags(f.tags) && p.links == SavedLinks(f.links) && p.link == None
  {
    Project(
      if initial.Some? then initial.value.id else Text.DecimalString(now),
      f.title,
      f.description,
      Some(f.longDescription),
      Some(f.client),
      Some(f.role),
      if f.imageUrl == "" then PlaceholderImage(now) else f.imageUrl,
      ParseTags(f.tags),
      SavedLinks(f.links),
      None,
      if initial.Some? then initial.value.date else nowIso,
      f.status,
      if initial.Some? then initial.value.views else 0)
  }

  /** Opening a project and saving it untouched gives it back, except that empty
      optional fields become empty strings and `link` is dropped. */
  lemma EditUntouched(p: Project, now: nat, nowIso: string)
    requires p.imageUrl != ""
    requires forall i :: 0 <= i < |p.tags| ==> WellFormedTag(p.tags[i])
    requires forall i :: 0 <= i < |p.links| ==> |p.links[i].caption| > 0 && |p.links[i].url| > 0
    ensures BuildProject(FormFor(p), Some(p), now, nowIso)
            == p.(longDescription := Some(p.longDescription.GetOr("")),
                  client := Some(p.client.GetOr("")),
                  role := Some(p.role.GetOr("")),
                  link := None)
  {
    TagsRoundTrip(p.tags);
    SavedLinksSpec(p.links);
  }

  /** `handleEnhance` with the AI's answers given: a description shorter than five
      characters changes nothing; otherwise the description is replaced, and tags are
      generated only into an empty tag field. */
  function Enhance(f: FormFields, enhanced: string, generated: seq<string>): (r: FormFields)
    ensures |f.description| < 5 ==> r == f
    ensures |f.description| >= 5 ==> r.description == enhanced
    ensures f.tags != "" ==> r.tags == f.tags
    ensures r == f.(description := r.description, tags := r.tags)
  {
    if |f.description| < 5 then f
    else f.(description := enhanced, tags := if f.tags == "" then Text.Join(generated, ", ") else f.tags)
  }

  /** Generated tags land in the field so that saving parses them back unchanged. */
  lemma EnhancedTagsSaved(f: FormFields, enhanced: string, generated: seq<string>)
    requires |f.description| >= 5 && f.tags == ""
    requires forall i :: 0 <= i < |generated| ==> WellFormedTag(generated[i])
    ensures ParseTags(Enhance(f, enhanced, generated).tags) == generated
  {
    TagsRoundTrip(generated);
  }
}
