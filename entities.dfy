/**
 * The records of the site (projects, messages, job applications, team members, page
 * copy and automation switches) and their encoding as stored rows.
 *
 * A row carries snake_case column names (`long_description`, `image_url`,
 * `access_code`); reading it back renames them and fills a field of the wrong kind
 * with the empty value of its type, the way the typed views of the site read it.
 */
module Entities {
  import opened Wrappers
  import opened JsValues

  /** `v` as a string, or the empty string. */
  function StrOf(v: Value): string {
    if v.Str? then v.s else ""
  }

  /** `v` as an optional string: anything but a string reads as absent. */
  function OptStrOf(v: Value): Option<string> {
    if v.Str? then Some(v.s) else None
  }

  /** An optional field is written as `undefined` when absent, so that merging it over
      a stored row clears the stored value. */
  function OptValue(s: Option<string>): (v: Value)
    ensures OptStrOf(v) == s
  {
    match s
    case Some(x) => Str(x)
    case None => Undefined
  }

  function NumOf(v: Value): int {
    if v.Num? then v.n else 0
  }

  /** `[s0, s1, ...]` as an array value. */
  function StrValues(ss: seq<string>): (r: seq<Value>)
    ensures |r| == |ss|
  {
    if |ss| == 0 then [] else [Str(ss[0])] + StrValues(ss[1..])
  }

  /** The string items of an array, in order. */
  function StringsOf(items: seq<Value>): seq<string> {
    if |items| == 0 then []
    else (if items[0].Str? then [items[0].s] else []) + StringsOf(items[1..])
  }

  lemma {:induction false} StringsRoundTrip(ss: seq<string>)
    ensures StringsOf(StrValues(ss)) == ss
  {
    if |ss| > 0 {
      StringsRoundTrip(ss[1..]);
      var vs := StrValues(ss);
      assert vs[0] == Str(ss[0]) && vs[1..] == StrValues(ss[1..]);
    }
  }

  /** `p.tags` read back: an array's strings, anything else none. */
  function TagsOf(v: Value): seq<string> {
    if v.Arr? then StringsOf(v.items) else []
  }

  /** `{ label, url }`; `label` is a reserved word here, so the field is `caption`. */
  datatype LinkItem = LinkItem(caption: string, url: string)

  function LinkValue(l: LinkItem): Value {
    Obj(map["label" := Str(l.caption), "url" := Str(l.url)])
  }

  function LinkValues(ls: seq<LinkItem>): (r: seq<Value>)
    ensures |r| == |ls|
  {
    if |ls| == 0 then [] else [LinkValue(ls[0])] + LinkValues(ls[1..])
  }

  /** The object items of an array as links, in order. */
  function LinkItemsOf(items: seq<Value>): seq<LinkItem> {
    if |items| == 0 then []
    else
      (if items[0].Obj? then [LinkItem(StrOf(Field(items[0].fields, "label")), StrOf(Field(items[0].fields, "url")))] else [])
      + LinkItemsOf(items[1..])
  }

  lemma {:induction false} LinksRoundTrip(ls: seq<LinkItem>)
    ensures LinkItemsOf(LinkValues(ls)) == ls
  {
    if |ls| > 0 {
      LinksRoundTrip(ls[1..]);
      var vs := LinkValues(ls);
      assert vs[0] == LinkValue(ls[0]) && vs[1..] == LinkValues(ls[1..]);
    }
  }

  /** `p.links || []`: a missing list reads as empty. */
  function LinksOf(v: Value): seq<LinkItem> {
    if v.Arr? then LinkItemsOf(v.items) else []
  }

  /** The three statuses of a project; a stored status outside them is kept by name. */
  datatype ProjectStatus = Draft | Published | Archived | OtherStatus(name: string)

  function StatusName(s: ProjectStatus): string {
    match s
    case Draft => "draft"
    case Published => "published"
    case Archived => "archived"
    case OtherStatus(name) => name
  }

  function ParseStatus(s: string): (r: ProjectStatus)
    ensures StatusName(r) == s
  {
    if s == "draft" then Draft
    else if s == "published" then Published
    else if s == "archived" then Archived
    else OtherStatus(s)
  }

  /** A status that is written and read back is the same status, unless it is an
      unrecognised one spelled like a recognised one. */
  predicate CanonicalStatus(s: ProjectStatus) {
    s.OtherStatus? ==> s.name != "draft" && s.name != "published" && s.name != "archived"
  }

  lemma StatusRoundTrip(s: ProjectStatus)
    requires CanonicalStatus(s)
    ensures ParseStatus(StatusName(s)) == s
  {
  }

  datatype Project = Project(
    id: string,
    title: string,
    description: string,
    longDescription: Option<string>,
    client: Option<string>,
    role: Option<string>,
    imageUrl: string,
    tags: seq<string>,
    links: seq<LinkItem>,
    link: Option<string>,
    date: string,
    status: ProjectStatus,
    views: int)

  /** The row written for a project by both `addProject` and `updateProject`: every
      column but the id, with the view count given. */
  function ProjectRow(p: Project, views: int): (r: Row)
    ensures "id" !in r
  {
    map[
      "title" := Str(p.title),
      "description" := Str(p.description),
      "long_description" := OptValue(p.longDescription),
      "client" := OptValue(p.client),
      "role" := OptValue(p.role),
      "image_url" := Str(p.imageUrl),
      "tags" := Arr(StrValues(p.tags)),
      "links" := Arr(LinkValues(p.links)),
      "link" := OptValue(p.link),
      "date" := Str(p.date),
      "status" := Str(StatusName(p.status)),
      "views" := Num(views)]
  }

  /** `{ ...p, longDescription: p.long_description, imageUrl: p.image_url,
      links: p.links || [] }`, as a typed project. */
  function ProjectFromRow(r: Row): Project {
    Project(
      StrOf(Field(r, "id")),
      StrOf(Field(r, "title")),
      StrOf(Field(r, "description")),
      OptStrOf(Field(r, "long_description")),
      OptStrOf(Field(r, "client")),
      OptStrOf(Field(r, "role")),
      StrOf(Field(r, "image_url")),
      TagsOf(Field(r, "tags")),
      LinksOf(Field(r, "links")),
      OptStrOf(Field(r, "link")),
      StrOf(Field(r, "date")),
      ParseStatus(StrOf(Field(r, "status"))),
      NumOf(Field(r, "views")))
  }

  lemma ProjectRowText(p: Project, views: int)
    ensures var r := ProjectRow(p, views);
      && Field(r, "title") == Str(p.title)
      && Field(r, "description") == Str(p.description)
      && Field(r, "long_description") == OptValue(p.longDescription)
      && Field(r, "client") == OptValue(p.client)
      && Field(r, "role") == OptValue(p.role)
      && Field(r, "image_url") == Str(p.imageUrl)
  {
  }

  lemma ProjectRowRest(p: Project, views: int)
    ensures var r := ProjectRow(p, views);
      && Field(r, "tags") == Arr(StrValues(p.tags))
      && Field(r, "links") == Arr(LinkValues(p.links))
      && Field(r, "link") == OptValue(p.link)
      && Field(r, "date") == Str(p.date)
      && Field(r, "status") == Str(StatusName(p.status))
      && Field(r, "views") == Num(views)
  {
  }

  /** A project written with a given id and view count reads back as itself with
      that id and count. */
  lemma ProjectRoundTrip(p: Project, id: string, views: int)
    requires CanonicalStatus(p.status)
    ensures ProjectFromRow(Merge(map["id" := Str(id)], ProjectRow(p, views))) == p.(id := id, views := views)
  {
    var row := ProjectRow(p, views);
    var r := Merge(map["id" := Str(id)], row);
    ProjectRowText(p, views);
    ProjectRowRest(p, views);
    assert forall k :: k != "id" ==> Field(r, k) == Field(row, k);
    StringsRoundTrip(p.tags);
    LinksRoundTrip(p.links);
    StatusRoundTrip(p.status);
  }

  datatype ContactFormInputs = ContactFormInputs(name: string, email: string, subject: string, message: string)

  datatype Message = Message(id: string, name: string, email: string, subject: string, message: string, date: string, read: bool)

  /** The row `addMessage` writes: the form, the date and `read: false`. */
  function MessageRow(inputs: ContactFormInputs, date: string): (r: Row)
    ensures "id" !in r
  {
    map["name" := Str(inputs.name), "email" := Str(inputs.email), "subject" := Str(inputs.subject),
        "message" := Str(inputs.message), "date" := Str(date), "read" := Bool(false)]
  }

  /** A message row; `read` is taken by truthiness, as `!m.read` does. */
  function MessageFromRow(r: Row): Message {
    Message(StrOf(Field(r, "id")), StrOf(Field(r, "name")), StrOf(Field(r, "email")),
            StrOf(Field(r, "subject")), StrOf(Field(r, "message")), StrOf(Field(r, "date")),
            Truthy(Field(r, "read")))
  }

  lemma MessageRoundTrip(inputs: ContactFormInputs, date: string, id: string)
    ensures MessageFromRow(Merge(map["id" := Str(id)], MessageRow(inputs, date)))
            == Message(id, inputs.name, inputs.email, inputs.subject, inputs.message, date, false)
  {
  }

  datatype JoinFormInputs = JoinFormInputs(name: string, email: string, role: string, portfolio: string, motivation: string)

  datatype ApplicationStatus = Pending | Reviewed | Contacted | Approved | Declined | OtherApplicationStatus(name: string)

  function ApplicationStatusName(s: ApplicationStatus): string {
    match s
    case Pending => "pending"
    case Reviewed => "reviewed"
    case Contacted => "contacted"
    case Approved => "approved"
    case Declined => "declined"
    case OtherApplicationStatus(name) => name
  }

  function ParseApplicationStatus(s: string): (r: ApplicationStatus)
    ensures ApplicationStatusName(r) == s
  {
    if s == "pending" then Pending
    else if s == "reviewed" then Reviewed
    else if s == "contacted" then Contacted
    else if s == "approved" then Approved
    else if s == "declined" then Declined
    else OtherApplicationStatus(s)
  }

  /** A status whose name is not one of the five it would be read back as. */
  predicate CanonicalApplicationStatus(s: ApplicationStatus) {
    s.OtherApplicationStatus? ==>
      s.name !in ["pending", "reviewed", "contacted", "approved", "declined"]
  }

  lemma ApplicationStatusRoundTrip(s: ApplicationStatus)
    requires CanonicalApplicationStatus(s)
    ensures ParseApplicationStatus(ApplicationStatusName(s)) == s
  {
  }

  datatype JobApplication = JobApplication(
    id: string, name: string, email: string, role: string, portfolio: string,
    motivation: string, date: string, status: ApplicationStatus)

  /** The row `addApplication` writes: the form, the date and status `pending`. */
  function ApplicationRow(inputs: JoinFormInputs, date: string): (r: Row)
    ensures "id" !in r
  {
    map["name" := Str(inputs.name), "email" := Str(inputs.email), "role" := Str(inputs.role),
        "portfolio" := Str(inputs.portfolio), "motivation" := Str(inputs.motivation),
        "date" := Str(date), "status" := Str("pending")]
  }

  function ApplicationFromRow(r: Row): JobApplication {
    JobApplication(StrOf(Field(r, "id")), StrOf(Field(r, "name")), StrOf(Field(r, "email")),
                   StrOf(Field(r, "role")), StrOf(Field(r, "portfolio")), StrOf(Field(r, "motivation")),
                   StrOf(Field(r, "date")), ParseApplicationStatus(StrOf(Field(r, "status"))))
  }

  /** A submitted application reads back pending, with the form's fields. */
  lemma ApplicationRoundTrip(inputs: JoinFormInputs, date: string, id: string)
    ensures ApplicationFromRow(Merge(map["id" := Str(id)], ApplicationRow(inputs, date)))
            == JobApplication(id, inputs.name, inputs.email, inputs.role, inputs.portfolio,
                              inputs.motivation, date, Pending)
  {
  }

  /** The three roles of a team member; a stored role outside them grants nothing. */
  datatype Role = Owner | Admin | Editor | OtherRole(name: string)

  function RoleName(r: Role): string {
    match r
    case Owner => "owner"
    case Admin => "admin"
    case Editor => "editor"
    case OtherRole(name) => name
  }

  function ParseRole(s: string): (r: Role)
    ensures RoleName(r) == s
  {
    if s == "owner" then Owner
    else if s == "admin" then Admin
    else if s == "editor" then Editor
    else OtherRole(s)
  }

  predicate CanonicalRole(r: Role) {
    r.OtherRole? ==> r.name != "owner" && r.name != "admin" && r.name != "editor"
  }

  datatype AdminUser = AdminUser(id: string, email: string, accessCode: string, name: string, role: Role)

  /** The row `addAdmin` writes: name, email, `access_code` and role, without the id. */
  function AdminRow(a: AdminUser): (r: Row)
    ensures "id" !in r
  {
    map["name" := Str(a.name), "email" := Str(a.email), "access_code" := Str(a.accessCode),
        "role" := Str(RoleName(a.role))]
  }

  /** `{ ...a, accessCode: a.access_code }`. */
  function AdminFromRow(r: Row): AdminUser {
    AdminUser(StrOf(Field(r, "id")), StrOf(Field(r, "email")), StrOf(Field(r, "access_code")),
              StrOf(Field(r, "name")), ParseRole(StrOf(Field(r, "role"))))
  }

  lemma AdminRoundTrip(a: AdminUser, id: string)
    requires CanonicalRole(a.role)
    ensures AdminFromRow(Merge(map["id" := Str(id)], AdminRow(a))) == a.(id := id)
  {
  }

  /** The editable copy of the site: section name, then key, then text. */
  type SiteContent = map<string, map<string, string>>

  function SectionValue(m: map<string, string>): Value {
    Obj(map k | k in m :: Str(m[k]))
  }

  function ContentValue(c: SiteContent): Value {
    Obj(map s | s in c :: SectionValue(c[s]))
  }

  /** A stored section: its string fields. */
  function SectionOf(v: Value): (m: map<string, string>)
    ensures v.Obj? ==> forall k :: k in m <==> k in v.fields && v.fields[k].Str?
    ensures v.Obj? ==> forall k :: k in m ==> Str(m[k]) == v.fields[k]
    ensures !v.Obj? ==> m == map[]
  {
    if v.Obj? then map k | k in v.fields && v.fields[k].Str? :: v.fields[k].s else map[]
  }

  /** Stored content: its object-valued sections. */
  function ContentOf(v: Value): (c: SiteContent)
    ensures v.Obj? ==> forall s :: s in c <==> s in v.fields && v.fields[s].Obj?
    ensures v.Obj? ==> forall s :: s in c ==> c[s] == SectionOf(v.fields[s])
    ensures !v.Obj? ==> c == map[]
  {
    if v.Obj? then map s | s in v.fields && v.fields[s].Obj? :: SectionOf(v.fields[s]) else map[]
  }

  lemma SectionRoundTrip(m: map<string, string>)
    ensures SectionOf(SectionValue(m)) == m
  {
    var back := SectionOf(SectionValue(m));
    assert forall k :: k in back <==> k in m;
    assert forall k :: k in m ==> back[k] == m[k];
  }

  /** Content written into the settings row reads back as the same content. */
  lemma ContentRoundTrip(c: SiteContent)
    ensures ContentOf(ContentValue(c)) == c
  {
    var back := ContentOf(ContentValue(c));
    forall s | s in c ensures s in back && back[s] == c[s] {
      SectionRoundTrip(c[s]);
    }
    assert forall s :: s in back <==> s in c;
  }

  /**
   * The content merge of the public fetch: stored sections replace the in-memory ones,
   * except `owner`, whose stored fields are merged over the in-memory owner fields so
   * that fields the store lacks keep their values. Content without any key is ignored.
   */
  function MergeContent(prev: SiteContent, stored: Value): (c: SiteContent)
    ensures !(stored.Obj? && |stored.fields| > 0) ==> c == prev
    ensures forall s :: s in prev ==> s in c
    ensures stored.Obj? && |stored.fields| > 0 ==>
      var loaded := ContentOf(stored);
      && (forall s :: s in c ==> s in prev || s in loaded || s == "owner")
      && (forall s :: s in loaded && s != "owner" ==> s in c && c[s] == loaded[s])
      && (forall s :: s in prev && s !in loaded && s != "owner" ==> s in c && c[s] == prev[s])
      && "owner" in c
      && (forall k :: k in c["owner"] <==>
            (("owner" in loaded && k in loaded["owner"]) || ("owner" in prev && k in prev["owner"])))
      && (forall k :: "owner" in loaded && k in loaded["owner"] ==> c["owner"][k] == loaded["owner"][k])
      && (forall k :: "owner" in prev && k in prev["owner"] && !("owner" in loaded && k in loaded["owner"]) ==>
            c["owner"][k] == prev["owner"][k])
  {
    if stored.Obj? && |stored.fields| > 0 then
      var loaded := ContentOf(stored);
      var prevOwner := if "owner" in prev then prev["owner"] else map[];
      var storedOwner := if "owner" in loaded then loaded["owner"] else map[];
      (prev + loaded)["owner" := prevOwner + storedOwner]
    else prev
  }

  datatype AutomationKey = AutoReplyContact | AutoArchiveDeclined | NotifyOnApplication | MaintenanceMode | ApplicationsEnabled

  function KeyName(k: AutomationKey): string {
    match k
    case AutoReplyContact => "autoReplyContact"
    case AutoArchiveDeclined => "autoArchiveDeclined"
    case NotifyOnApplication => "notifyOnApplication"
    case MaintenanceMode => "maintenanceMode"
    case ApplicationsEnabled => "applicationsEnabled"
  }

  datatype AutomationSettings = AutomationSettings(
    autoReplyContact: bool,
    autoArchiveDeclined: bool,
    notifyOnApplication: bool,
    maintenanceMode: bool,
    applicationsEnabled: bool)
  {
    /** `settings[key]`. */
    function Get(k: AutomationKey): bool {
      match k
      case AutoReplyContact => autoReplyContact
      case AutoArchiveDeclined => autoArchiveDeclined
      case NotifyOnApplication => notifyOnApplication
      case MaintenanceMode => maintenanceMode
      case ApplicationsEnabled => applicationsEnabled
    }

    /** `{ ...settings, [key]: b }`. */
    function Set(k: AutomationKey, b: bool): (r: AutomationSettings)
      ensures r.Get(k) == b
      ensures forall j :: j != k ==> r.Get(j) == Get(j)
    {
      match k
      case AutoReplyContact => this.(autoReplyContact := b)
      case AutoArchiveDeclined => this.(autoArchiveDeclined := b)
      case NotifyOnApplication => this.(notifyOnApplication := b)
      case MaintenanceMode => this.(maintenanceMode := b)
      case ApplicationsEnabled => this.(applicationsEnabled := b)
    }
  }

  /** Two settings that agree on every key are the same settings. */
  lemma SettingsExtensional(a: AutomationSettings, b: AutomationSettings)
    requires forall k :: a.Get(k) == b.Get(k)
    ensures a == b
  {
    assert a.Get(AutoReplyContact) == b.Get(AutoReplyContact);
    assert a.Get(AutoArchiveDeclined) == b.Get(AutoArchiveDeclined);
    assert a.Get(NotifyOnApplication) == b.Get(NotifyOnApplication);
    assert a.Get(MaintenanceMode) == b.Get(MaintenanceMode);
    assert a.Get(ApplicationsEnabled) == b.Get(ApplicationsEnabled);
  }

  function AutomationsValue(a: AutomationSettings): Value {
    Obj(map[
      "autoReplyContact" := Bool(a.autoReplyContact),
      "autoArchiveDeclined" := Bool(a.autoArchiveDeclined),
      "notifyOnApplication" := Bool(a.notifyOnApplication),
      "maintenanceMode" := Bool(a.maintenanceMode),
      "applicationsEnabled" := Bool(a.applicationsEnabled)])
  }

  /** One switch of `{ ...prev, ...stored }`: the stored value, by truthiness, when the
      key is stored. */
  function MergeFlag(prev: bool, fields: map<string, Value>, name: string): bool {
    if name in fields then Truthy(fields[name]) else prev
  }

  /** The automations merge of the public fetch; stored settings without any key are
      ignored. */
  function MergeAutomations(prev: AutomationSettings, stored: Value): (a: AutomationSettings)
    ensures !(stored.Obj? && |stored.fields| > 0) ==> a == prev
    ensures stored.Obj? && |stored.fields| > 0 ==>
      forall k :: a.Get(k) == if KeyName(k) in stored.fields then Truthy(stored.fields[KeyName(k)]) else prev.Get(k)
  {
    if stored.Obj? && |stored.fields| > 0 then
      var f := stored.fields;
      AutomationSettings(
        MergeFlag(prev.autoReplyContact, f, "autoReplyContact"),
        MergeFlag(prev.autoArchiveDeclined, f, "autoArchiveDeclined"),
        MergeFlag(prev.notifyOnApplication, f, "notifyOnApplication"),
        MergeFlag(prev.maintenanceMode, f, "maintenanceMode"),
        MergeFlag(prev.applicationsEnabled, f, "applicationsEnabled"))
    else prev
  }

  /** Settings written into the settings row read back as themselves, whatever the
      in-memory settings were. */
  lemma AutomationsRoundTrip(prev: AutomationSettings, a: AutomationSettings)
    ensures MergeAutomations(prev, AutomationsValue(a)) == a
  {
    var f := AutomationsValue(a).fields;
    assert "autoReplyContact" in f;
  }
}
