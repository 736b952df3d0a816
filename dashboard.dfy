/**
 * The admin dashboard: what the signed-in member may do (the role predicates and the
 * guards on the team and application controls), the project status filter, the
 * overview counters, the content editor and the automation switches, and the
 * dashboard's own form state around the store's actions.
 */
module Dashboard {
  import opened Wrappers
  import opened Entities
  import Text
  import Lists
  import MockClient
  import RowSort
  import AppStore

  // ----- roles -----

  predicate CanEdit(u: Option<AdminUser>) {
    u.Some? && (u.value.role == Owner || u.value.role == Admin || u.value.role == Editor)
  }

  predicate CanDelete(u: Option<AdminUser>) {
    u.Some? && (u.value.role == Owner || u.value.role == Admin)
  }

  predicate CanManageTeam(u: Option<AdminUser>) {
    u.Some? && u.value.role == Owner
  }

  /** The three permissions form a ladder: managing the team implies deleting, which
      implies editing; every step up drops one role, and no user has any of them. */
  lemma RoleLadder(u: Option<AdminUser>)
    ensures CanManageTeam(u) ==> CanDelete(u)
    ensures CanDelete(u) ==> CanEdit(u)
    ensures CanDelete(u) <==> CanEdit(u) && u.value.role != Editor
    ensures CanManageTeam(u) <==> CanDelete(u) && u.value.role != Admin
    ensures u.None? ==> !CanEdit(u) && !CanDelete(u) && !CanManageTeam(u)
    ensures u.Some? && u.value.role.OtherRole? ==> !CanEdit(u)
  {
  }

  /** The recovery login is an owner, so it holds every permission. */
  lemma RecoveryUserIsOwner()
    ensures CanManageTeam(Some(AppStore.RecoveryUser()))
    ensures CanDelete(Some(AppStore.RecoveryUser())) && CanEdit(Some(AppStore.RecoveryUser()))
  {
  }

  // ----- team and application controls -----

  /** The delete control next to `target` in the team list. */
  predicate DeleteAdminOffered(current: AdminUser, admins: seq<AdminUser>, target: AdminUser) {
    CanManageTeam(Some(current)) && |admins| > 1 && target.id != current.id
  }

  predicate DistinctIds(admins: seq<AdminUser>) {
    forall i, j :: 0 <= i < j < |admins| ==> admins[i].id != admins[j].id
  }

  /** Deleting through the control never removes the signed-in member's own entry and
      never empties the team list. */
  lemma DeleteAdminKeepsSomeone(current: AdminUser, admins: seq<AdminUser>, target: AdminUser)
    requires target in admins && DistinctIds(admins)
    requires DeleteAdminOffered(current, admins, target)
    ensures var rest := Lists.Filter(admins, (a: AdminUser) => a.id != target.id);
      && rest != []
      && |rest| < |admins|
      && (forall i :: 0 <= i < |admins| && admins[i].id == current.id ==> admins[i] in rest)
  {
    var keep := (a: AdminUser) => a.id != target.id;
    var rest := Lists.Filter(admins, keep);
    var k :| 0 <= k < |admins| && admins[k] == target;
    var other := if k == 0 then 1 else 0;
    assert admins[other].id != target.id;
    assert admins[other] in rest;
    if |rest| == |admins| {
      FilterDropsFailing(admins, keep, k);
    }
  }

  /** An element that fails the test makes the filtered list strictly shorter. */
  lemma {:induction false} FilterDropsFailing<T>(s: seq<T>, keep: T -> bool, k: nat)
    requires k < |s| && !keep(s[k])
    ensures |Lists.Filter(s, keep)| < |s|
  {
    if k > 0 {
      FilterDropsFailing(s[1..], keep, k - 1);
    }
  }

  /** The status buttons offered for an application. */
  function OfferedStatuses(canEdit: bool, status: ApplicationStatus): seq<ApplicationStatus> {
    if canEdit && status == Pending then [Declined, Approved] else []
  }

  /** The disabled "Processed" marker. */
  predicate ShowsProcessed(canEdit: bool, status: ApplicationStatus) {
    canEdit && (status == Approved || status == Declined)
  }

  /** Approve and Decline are offered exactly for a pending application to a member who
      can edit; an approved or declined one has no active control. */
  lemma ApprovalGuard(canEdit: bool, status: ApplicationStatus)
    ensures OfferedStatuses(canEdit, status) != [] <==> canEdit && status == Pending
    ensures forall i :: 0 <= i < |OfferedStatuses(canEdit, status)| ==>
      OfferedStatuses(canEdit, status)[i] in {Approved, Declined}
    ensures status == Approved || status == Declined ==>
      OfferedStatuses(canEdit, status) == [] && (ShowsProcessed(canEdit, status) <==> canEdit)
  {
  }

  /** Once an offered decision is taken, the application with that id is offered
      nothing further. */
  lemma DecisionIsFinal(apps: seq<JobApplication>, i: nat, decision: ApplicationStatus, canEdit: bool)
    requires i < |apps|
    requires decision in OfferedStatuses(canEdit, apps[i].status)
    ensures var after := AppStore.SetApplicationStatus(apps, apps[i].id, decision);
      forall j :: 0 <= j < |after| && after[j].id == apps[i].id ==> OfferedStatuses(canEdit, after[j].status) == []
  {
  }

  // ----- the project status filter -----

  datatype StatusFilter = AllStatuses | OnlyStatus(status: ProjectStatus)

  function FilteredProjects(ps: seq<Project>, f: StatusFilter): seq<Project> {
    match f
    case AllStatuses => ps
    case OnlyStatus(s) => Lists.Filter(ps, (p: Project) => p.status == s)
  }

  /** `all` shows every project; a status shows exactly the projects with it, in order. */
  lemma FilteredProjectsSpec(ps: seq<Project>, f: StatusFilter)
    ensures f.AllStatuses? ==> FilteredProjects(ps, f) == ps
    ensures f.OnlyStatus? ==>
      && (forall i :: 0 <= i < |FilteredProjects(ps, f)| ==>
            FilteredProjects(ps, f)[i] in ps && FilteredProjects(ps, f)[i].status == f.status)
      && (forall i :: 0 <= i < |ps| && ps[i].status == f.status ==> ps[i] in FilteredProjects(ps, f))
  {
  }

  /** Filtering on `published` gives the public site's list. */
  lemma PublishedFilterIsPublicList(ps: seq<Project>)
    ensures FilteredProjects(ps, OnlyStatus(Published)) == AppStore.PublicProjects(ps)
  {
    Lists.FilterSameTest(ps, (p: Project) => p.status == OnlyStatus(Published).status, (p: Project) => p.status == Published);
  }

  // ----- overview counters -----

  /** `projects.reduce((acc, p) => acc + p.views, 0)`. */
  function TotalViews(ps: seq<Project>): int {
    if |ps| == 0 then 0 else ps[0].views + TotalViews(ps[1..])
  }

  lemma {:induction false} TotalViewsAppend(a: seq<Project>, b: seq<Project>)
    ensures TotalViews(a + b) == TotalViews(a) + TotalViews(b)
  {
    if |a| == 0 {
      assert a + b == b;
    } else {
      assert (a + b)[1..] == a[1..] + b;
      TotalViewsAppend(a[1..], b);
    }
  }

  /** One view recorded for `id` raises the total by the number of projects with it. */
  lemma {:induction false} IncrementViewsTotal(ps: seq<Project>, id: string)
    ensures TotalViews(AppStore.IncrementViews(ps, id))
            == TotalViews(ps) + Lists.Count(ps, (p: Project) => p.id == id)
  {
    var hit := (p: Project) => p.id == id;
    if |ps| > 0 {
      var r := AppStore.IncrementViews(ps, id);
      assert r[1..] == AppStore.IncrementViews(ps[1..], id);
      IncrementViewsTotal(ps[1..], id);
      assert ps == [ps[0]] + ps[1..];
      Lists.CountCons(ps[0], ps[1..], hit);
    }
  }

  function PendingApps(apps: seq<JobApplication>): nat {
    Lists.Count(apps, (a: JobApplication) => a.status == Pending)
  }

  function UnreadMessages(msgs: seq<Message>): nat {
    Lists.Count(msgs, (m: Message) => !m.read)
  }

  predicate DistinctApplicationIds(apps: seq<JobApplication>) {
    forall i, j :: 0 <= i < j < |apps| ==> apps[i].id != apps[j].id
  }

  /** Deciding a pending application lowers the pending counter by exactly one. */
  lemma PendingAfterDecision(apps: seq<JobApplication>, i: nat, decision: ApplicationStatus)
    requires i < |apps| && DistinctApplicationIds(apps)
    requires apps[i].status == Pending && decision != Pending
    ensures PendingApps(AppStore.SetApplicationStatus(apps, apps[i].id, decision)) + 1 == PendingApps(apps)
  {
    var after := AppStore.SetApplicationStatus(apps, apps[i].id, decision);
    assert after == apps[i := apps[i].(status := decision)];
    Lists.CountUpdate(apps, i, apps[i].(status := decision), (a: JobApplication) => a.status == Pending);
  }

  /** A message put in front of the list unread raises the unread counter by one. */
  lemma NewMessageUnread(m: Message, msgs: seq<Message>)
    requires !m.read
    ensures UnreadMessages([m] + msgs) == UnreadMessages(msgs) + 1
  {
    Lists.CountCons(m, msgs, (x: Message) => !x.read);
  }

  // ----- the content editor -----

  /** `{ ...prev, [section]: { ...prev[section], [key]: value } }`. */
  function ContentChanged(c: SiteContent, section: string, key: string, v: string): (r: SiteContent)
    ensures section in r && key in r[section] && r[section][key] == v
    ensures r.Keys == c.Keys + {section}
    ensures forall s :: s in c && s != section ==> r[s] == c[s]
    ensures r[section].Keys == (if section in c then c[section].Keys else {}) + {key}
    ensures forall k :: k in r[section] && k != key ==> section in c && k in c[section] && r[section][k] == c[section][k]
  {
    var prior := if section in c then c[section] else map[];
    c[section := prior[key := v]]
  }

  /** Edits to different fields do not interfere: their order does not matter. */
  lemma EditsCommute(c: SiteContent, s1: string, k1: string, v1: string, s2: string, k2: string, v2: string)
    requires s1 != s2 || k1 != k2
    ensures ContentChanged(ContentChanged(c, s1, k1, v1), s2, k2, v2)
            == ContentChanged(ContentChanged(c, s2, k2, v2), s1, k1, v1)
  {
    var p1 := if s1 in c then c[s1] else map[];
    var p2 := if s2 in c then c[s2] else map[];
    if s1 == s2 {
      assert p1[k1 := v1][k2 := v2] == p1[k2 := v2][k1 := v1];
    } else {
      assert c[s1 := p1[k1 := v1]][s2 := p2[k2 := v2]] == c[s2 := p2[k2 := v2]][s1 := p1[k1 := v1]];
    }
  }

  /** The last edit of a field wins. */
  lemma LastEditWins(c: SiteContent, section: string, key: string, v1: string, v2: string)
    ensures ContentChanged(ContentChanged(c, section, key, v1), section, key, v2) == ContentChanged(c, section, key, v2)
  {
    var a := ContentChanged(ContentChanged(c, section, key, v1), section, key, v2);
    var b := ContentChanged(c, section, key, v2);
    assert a.Keys == b.Keys;
    forall s | s in a ensures a[s] == b[s] {
      assert a[s].Keys == b[s].Keys;
    }
  }

  // ----- automations -----

  /** `{ ...automations, [key]: !automations[key] }`. */
  function ToggleAutomation(a: AutomationSettings, k: AutomationKey): AutomationSettings {
    a.Set(k, !a.Get(k))
  }

  /** Toggling negates one switch, leaves the others, and undoes itself. */
  lemma ToggleSpec(a: AutomationSettings, k: AutomationKey)
    ensures ToggleAutomation(a, k).Get(k) == !a.Get(k)
    ensures forall j :: j != k ==> ToggleAutomation(a, k).Get(j) == a.Get(j)
    ensures ToggleAutomation(ToggleAutomation(a, k), k) == a
  {
    var twice := ToggleAutomation(ToggleAutomation(a, k), k);
    assert forall j :: twice.Get(j) == a.Get(j);
    SettingsExtensional(twice, a);
  }

  // ----- the dashboard's own state -----

  /** The name a new member gets: the one typed, or `Admin`. */
  function NewAdmin(name: string, email: string, code: string, role: Role, now: nat): (a: AdminUser)
    ensures a.name != ""
    ensures name != "" ==> a.name == name
  {
    var shown := if |name| == 0 then "Admin" else name;
    assert |shown| > 0;
    AdminUser(Text.DecimalString(now), email, code, shown, role)
  }

  /** The member added at time `now` reads back from the table as the one submitted. */
  lemma AddedAdminReadsBack(name: string, email: string, code: string, role: Role, now: nat)
    requires CanonicalRole(role)
    ensures AdminFromRow(MockClient.WithGeneratedId(AdminRow(NewAdmin(name, email, code, role, now)), now))
            == NewAdmin(name, email, code, role, now)
  {
    AdminRoundTrip(NewAdmin(name, email, code, role, now), Text.DecimalString(now));
  }

  datatype SaveStatus = Idle | Saving | Saved

  datatype SessionState = SessionState(
    email: string,
    accessCode: string,
    error: string,
    currentUser: Option<AdminUser>,
    editingContent: SiteContent,
    saveStatus: SaveStatus,
    newAdminEmail: string,
    newAdminName: string,
    newAdminCode: string,
    newAdminRole: Role)

  class Session {
    const store: AppStore.Store
    var email: string
    var accessCode: string
    var error: string
    var currentUser: Option<AdminUser>
    var editingContent: SiteContent
    var saveStatus: SaveStatus
    var newAdminEmail: string
    var newAdminName: string
    var newAdminCode: string
    var newAdminRole: Role

    function View(): SessionState
      reads this
    {
      SessionState(email, accessCode, error, currentUser, editingContent, saveStatus,
                   newAdminEmail, newAdminName, newAdminCode, newAdminRole)
    }

    /** Empty forms, no user, the store's copy in the editor, new members as editors. */
    constructor (store: AppStore.Store)
      ensures this.store == store
      ensures View() == SessionState("", "", "", None, store.siteContent, Idle, "", "", "", Editor)
    {
      this.store := store;
      email := "";
      accessCode := "";
      error := "";
      currentUser := None;
      editingContent := store.siteContent;
      saveStatus := Idle;
      newAdminEmail := "";
      newAdminName := "";
      newAdminCode := "";
      newAdminRole := Editor;
    }

    /** `handleLogin`: signs in with the typed credentials; on success the editor is
        loaded with the store's copy, on failure the error is shown. */
    method HandleLogin(now: nat)
      modifies this, store, store.db
      ensures var user := AppStore.LoginResult(old(store.db.Get("admins")), old(email), old(accessCode));
        && View() == old(View()).(
             currentUser := if user.Some? then user else old(currentUser),
             editingContent := if user.Some? then old(store.siteContent) else old(editingContent),
             error := if user.Some? then "" else "Invalid email or access code")
        && store.State() == (if user.Some? then old(store.State()).(isAdmin := true, currentUser := user) else old(store.State()))
        && store.db.slots == (if old(email) == AppStore.RecoveryEmail && old(accessCode) == AppStore.RecoveryCode
                              then AppStore.SeededSlots(old(store.db.slots), old(store.siteContent), old(store.automations), now)
                              else old(store.db.slots))
    {
      error := "";
      var user := store.Login(email, accessCode, now);
      if user.Some? {
        currentUser := user;
        editingContent := store.siteContent;
      } else {
        error := "Invalid email or access code";
      }
    }

    /** `handleLogin` over the store's login as written: only the recovery credential
        signs in, and it seeds the tables as written; any other credential shows the
        error and leaves the store and the tables as they were. */
    method HandleLoginAsWritten(now: nat)
      modifies this, store, store.db
      ensures var recovery := old(email) == AppStore.RecoveryEmail && old(accessCode) == AppStore.RecoveryCode;
        && (recovery ==>
              && View() == old(View()).(currentUser := Some(AppStore.RecoveryUser()), editingContent := old(store.siteContent), error := "")
              && store.State() == old(store.State()).(isAdmin := true, currentUser := Some(AppStore.RecoveryUser()))
              && store.db.slots == AppStore.SeededSlotsAsWritten(old(store.db.slots), old(store.siteContent), old(store.automations), now))
        && (!recovery ==>
              && View() == old(View()).(error := "Invalid email or access code")
              && store.State() == old(store.State())
              && store.db.slots == old(store.db.slots))
    {
      error := "";
      var user := store.LoginAsWritten(email, accessCode, now);
      if user.Some? {
        currentUser := user;
        editingContent := store.siteContent;
      } else {
        error := "Invalid email or access code";
      }
    }

    /** `handleLogout`: the store forgets the user and the forms are cleared. */
    method HandleLogout()
      modifies this, store
      ensures View() == old(View()).(email := "", accessCode := "", currentUser := None)
      ensures store.State() == old(store.State()).(isAdmin := false, currentUser := None,
                                                   messages := [], applications := [], admins := [])
    {
      store.Logout();
      email := "";
      accessCode := "";
      currentUser := None;
    }

    method HandleContentChange(section: string, key: string, v: string)
      modifies this
      ensures View() == old(View()).(editingContent := ContentChanged(old(editingContent), section, key, v))
    {
      editingContent := ContentChanged(editingContent, section, key, v);
    }

    /** `saveContent`: a member who cannot edit changes nothing; otherwise the edited copy
        goes to the store. */
    method SaveContent()
      modifies this, store, store.db
      ensures !CanEdit(old(currentUser)) ==>
        View() == old(View()) && store.State() == old(store.State()) && store.db.slots == old(store.db.slots)
      ensures CanEdit(old(currentUser)) ==>
        && View() == old(View()).(saveStatus := Saving)
        && store.State() == old(store.State()).(siteContent := old(editingContent))
        && store.db.slots == old(store.db.slots)["site_settings" := MockClient.Stored(
             AppStore.ContentWrite(old(store.db.Get("site_settings")), old(editingContent), old(store.automations)))]
    {
      if !CanEdit(currentUser) {
        return;
      }
      saveStatus := Saving;
      store.UpdateContent(editingContent);
    }

    /** `saveContent` over the store's `updateContent` as written: the settings row gets
        the edited copy and the store's in-memory switches. */
    method SaveContentAsWritten()
      modifies this, store, store.db
      ensures !CanEdit(old(currentUser)) ==>
        View() == old(View()) && store.State() == old(store.State()) && store.db.slots == old(store.db.slots)
      ensures CanEdit(old(currentUser)) ==>
        && View() == old(View()).(saveStatus := Saving)
        && store.State() == old(store.State()).(siteContent := old(editingContent))
        && store.db.slots == old(store.db.slots)["site_settings" := MockClient.Stored(
             AppStore.ContentWriteAsWritten(old(store.db.Get("site_settings")), old(editingContent), old(store.automations)))]
    {
      if !CanEdit(currentUser) {
        return;
      }
      saveStatus := Saving;
      store.UpdateContentAsWritten(editingContent);
    }

    /** `handleAddAdmin`: adds a member only with an email and a code typed and an owner
        signed in, then clears the typed fields. */
    method HandleAddAdmin(now: nat)
      modifies this, store, store.db
      ensures var ok := old(newAdminEmail) != "" && old(newAdminCode) != "" && CanManageTeam(old(currentUser));
        var added := NewAdmin(old(newAdminName), old(newAdminEmail), old(newAdminCode), old(newAdminRole), now);
        && (!ok ==> View() == old(View()) && store.State() == old(store.State()) && store.db.slots == old(store.db.slots))
        && (ok ==>
              && View() == old(View()).(newAdminEmail := "", newAdminName := "", newAdminCode := "")
              && store.db.slots == old(store.db.slots)["admins" := MockClient.Stored(
                   old(store.db.Get("admins")) + [MockClient.WithGeneratedId(AdminRow(added), now)])]
              && var byDate := Some(RowSort.Ordering("date", false));
                 store.State() == old(store.State()).(
                   messages := AppStore.MessagesOf(MockClient.Query(store.db.Get("messages"), [], byDate)),
                   applications := AppStore.ApplicationsOf(MockClient.Query(store.db.Get("applications"), [], byDate)),
                   admins := AppStore.AdminsOf(MockClient.Query(store.db.Get("admins"), [], None))))
    {
      if newAdminEmail != "" && newAdminCode != "" && CanManageTeam(currentUser) {
        store.AddAdmin(NewAdmin(newAdminName, newAdminEmail, newAdminCode, newAdminRole, now), now);
        newAdminEmail := "";
        newAdminName := "";
        newAdminCode := "";
      }
    }

    /** `toggleAutomation(key)`: the store's switches with that one negated. */
    method ToggleAutomationAction(k: AutomationKey)
      modifies store, store.db
      ensures store.State() == old(store.State()).(automations := ToggleAutomation(old(store.automations), k))
      ensures store.db.slots == old(store.db.slots)["site_settings" := MockClient.Stored(
        AppStore.AutomationsWrite(old(store.db.Get("site_settings")), ToggleAutomation(old(store.automations), k), old(store.siteContent)))]
    {
      store.UpdateAutomations(ToggleAutomation(store.automations, k));
    }

    /** `toggleAutomation(key)` over the store's `updateAutomations` as written: the
        settings row gets the toggled switches and the store's in-memory copy. */
    method ToggleAutomationActionAsWritten(k: AutomationKey)
      modifies store, store.db
      ensures store.State() == old(store.State()).(automations := ToggleAutomation(old(store.automations), k))
      ensures store.db.slots == old(store.db.slots)["site_settings" := MockClient.Stored(
        AppStore.AutomationsWriteAsWritten(old(store.db.Get("site_settings")), ToggleAutomation(old(store.automations), k), old(store.siteContent)))]
    {
      store.UpdateAutomationsAsWritten(ToggleAutomation(store.automations, k));
    }
  }
}
