/**
 * The application store: the state the top-level component keeps (whether the visitor
 * is an admin, the lists of projects, messages, applications and team members, the
 * page copy and the automation switches) and the actions that change it while
 * reading and writing the tables.
 *
 * Each asynchronous action is one sequential method. Outgoing email is an outbox the
 * store appends to; the current time is a parameter (`now` in milliseconds for
 * generated ids, `nowIso` for dates).
 */
module AppStore {
  import opened Wrappers
  import opened JsValues
  import opened Entities
  import Text
  import Lists
  import RowSort
  import MockClient

  const RecoveryEmail: string := "admin@gigspace.com"
  const RecoveryCode: string := "admin123"

  /** The user the fixed recovery credential logs in as. */
  function RecoveryUser(): AdminUser {
    AdminUser("recovery-admin", RecoveryEmail, RecoveryCode, "GigSpace Owner", Owner)
  }

  function DefaultAutomations(): AutomationSettings {
    AutomationSettings(true, false, true, false, true)
  }

  datatype Email = Email(to: string, subject: string, html: string)

  function First(rows: seq<Row>): Option<Row> {
    if |rows| > 0 then Some(rows[0]) else None
  }

  // ----- the table calls the actions make, one `supabase.from(table)` chain each -----

  /** `from(table).select('*')`, with `.order(...)` when an ordering is given. */
  method SelectAll(db: MockClient.Storage, table: string, ordering: Option<RowSort.Ordering>) returns (rows: seq<Row>)
    ensures rows == MockClient.Query(db.Get(table), [], ordering)
  {
    var b := new MockClient.MockBuilder(db, table);
    if ordering.Some? {
      b.Order(ordering.value.column, ordering.value.ascending);
    }
    rows := b.Execute();
  }

  /** `from(table).select(...).eq(...)....single()`: the first matching row. */
  method SelectFirst(db: MockClient.Storage, table: string, filters: seq<MockClient.Filter>) returns (data: Option<Row>)
    ensures data == First(MockClient.Where(db.Get(table), filters))
  {
    var b := new MockClient.MockBuilder(db, table);
    var i := 0;
    while i < |filters|
      invariant 0 <= i <= |filters|
      invariant b.filters == filters[..i] && b.ordering == None
    {
      b.Eq(filters[i].column, filters[i].value);
      assert filters[..i + 1] == filters[..i] + [filters[i]];
      i := i + 1;
    }
    assert filters[..i] == filters;
    var error;
    data, error := b.Single();
  }

  /** The same chain against the local table as `single()` is written: nothing comes
      back, whichever rows match. */
  method SelectFirstAsWritten(db: MockClient.Storage, table: string, filters: seq<MockClient.Filter>) returns (data: Option<Row>)
    ensures data == None
  {
    var b := new MockClient.MockBuilder(db, table);
    var i := 0;
    while i < |filters|
      invariant 0 <= i <= |filters|
    {
      b.Eq(filters[i].column, filters[i].value);
      i := i + 1;
    }
    var error;
    data, error := b.SingleAsWritten();
  }

  /** `from(table).insert(data)`. */
  method InsertInto(db: MockClient.Storage, table: string, data: Row, now: nat) returns (newRow: Row)
    modifies db
    ensures newRow == MockClient.WithGeneratedId(data, now)
    ensures db.slots == old(db.slots)[table := MockClient.Stored(old(db.Get(table)) + [newRow])]
  {
    var b := new MockClient.MockBuilder(db, table);
    newRow := b.Insert(data, now);
  }

  /** `from(table).update(patch).eq(column, value)`, with the filter in place before
      the update runs. */
  method UpdateWhere(db: MockClient.Storage, table: string, column: string, value: Value, patch: Row)
    modifies db
    ensures db.slots == old(db.slots)[table := MockClient.Stored(
      MockClient.Patched(old(db.Get(table)), [MockClient.Eq(column, value)], patch))]
  {
    var b := new MockClient.MockBuilder(db, table);
    b.Eq(column, value);
    assert b.filters == [MockClient.Eq(column, value)];
    var _ := b.Update(patch);
  }

  /** `from(table).delete().eq(column, value)`, with the filter in place before the
      delete runs. */
  method DeleteWhere(db: MockClient.Storage, table: string, column: string, value: Value)
    modifies db
    ensures db.slots == old(db.slots)[table := MockClient.Stored(
      MockClient.Remaining(old(db.Get(table)), [MockClient.Eq(column, value)]))]
  {
    var b := new MockClient.MockBuilder(db, table);
    b.Eq(column, value);
    assert b.filters == [MockClient.Eq(column, value)];
    b.Delete();
  }

  /** `from(table).update(patch).eq(column, value)` against the local table as the chain
      is written: the update runs before the filter exists, on every row, and the chain
      then throws. */
  method UpdateWhereAsWritten(db: MockClient.Storage, table: string, column: string, value: Value, patch: Row)
    returns (threw: bool)
    modifies db
    ensures db.slots == old(db.slots)[table := MockClient.Stored(MockClient.Patched(old(db.Get(table)), [], patch))]
    ensures threw
  {
    var b := new MockClient.MockBuilder(db, table);
    threw := b.UpdateThenEq(patch, column, value);
  }

  /** `from(table).delete().eq(column, value)` as written: nothing is removed and the
      chain throws. */
  method DeleteWhereAsWritten(db: MockClient.Storage, table: string, column: string, value: Value)
    returns (threw: bool)
    modifies db
    ensures db.slots == old(db.slots)[table := MockClient.Stored(old(db.Get(table)))]
    ensures threw
  {
    var b := new MockClient.MockBuilder(db, table);
    MockClient.RemainingNoFilters(db.Get(table));
    threw := b.DeleteThenEq(column, value);
  }

  /** `from(table).insert(data).select().single()` as written: the row is stored and
      the chain throws before any data comes back. */
  method InsertSelectAsWritten(db: MockClient.Storage, table: string, data: Row, now: nat)
    returns (threw: bool)
    modifies db
    ensures db.slots == old(db.slots)[table := MockClient.Stored(old(db.Get(table)) + [MockClient.WithGeneratedId(data, now)])]
    ensures threw
  {
    var b := new MockClient.MockBuilder(db, table);
    threw := b.InsertThenSelect(data, now);
  }

  /** `from(table).upsert(data)`. */
  method UpsertInto(db: MockClient.Storage, table: string, data: Row)
    modifies db
    ensures db.slots == old(db.slots)[table := MockClient.Stored(MockClient.Upserted(old(db.Get(table)), data))]
  {
    var b := new MockClient.MockBuilder(db, table);
    var _ := b.Upsert(data);
  }

  // ----- the settings row: content and automations share the row with id 1 -----

  function SettingsRow(content: Value, automations: Value): Row {
    map["id" := Num(1), "content" := content, "automations" := automations]
  }

  /** `from('site_settings').select(...).eq('id', 1).single()`. */
  function StoredSettings(rows: seq<Row>): Option<Row> {
    First(MockClient.Where(rows, [MockClient.Eq("id", Num(1))]))
  }

  /** The copy after loading the settings row: merged when there is one. */
  function SettingsContent(prev: SiteContent, settings: Option<Row>): SiteContent {
    if settings.Some? then MergeContent(prev, Field(settings.value, "content")) else prev
  }

  /** The switches after loading the settings row: merged when there is one. */
  function SettingsAutomations(prev: AutomationSettings, settings: Option<Row>): AutomationSettings {
    if settings.Some? then MergeAutomations(prev, Field(settings.value, "automations")) else prev
  }

  /** `current?.[key] || fallback`: the stored half when there is a truthy one. */
  function KeptSibling(current: Option<Row>, key: string, fallback: Value): Value {
    if current.Some? && Truthy(Field(current.value, key)) then Field(current.value, key) else fallback
  }

  /** After a settings upsert, reading the settings row gives the written content and
      automations: the query by id and the upsert by id find the same row. */
  lemma SettingsReadBack(rows: seq<Row>, content: Value, automations: Value)
    ensures StoredSettings(MockClient.Upserted(rows, SettingsRow(content, automations))).Some?
    ensures var r := StoredSettings(MockClient.Upserted(rows, SettingsRow(content, automations))).value;
      Field(r, "id") == Num(1) && Field(r, "content") == content && Field(r, "automations") == automations
  {
    var data := SettingsRow(content, automations);
    var up := MockClient.Upserted(rows, data);
    assert Field(data, "id") == Num(1);
    MockClient.IdQueryFindsUpsertTarget(up, Num(1));
    match MockClient.FirstIdMatch(rows, Num(1))
    case Some(i) =>
      assert up[i] == Merge(rows[i], data);
      assert forall j :: 0 <= j < i ==> up[j] == rows[j];
      MockClient.FirstIdMatchUnique(up, Num(1), i);
    case None =>
      assert up[|rows|] == data;
      assert forall j :: 0 <= j < |rows| ==> up[j] == rows[j];
      MockClient.FirstIdMatchUnique(up, Num(1), |rows|);
  }

  /** The settings table after `updateContent(newContent)`: the new content, with the
      automations already stored, or the in-memory ones when none are. */
  function ContentWrite(rows: seq<Row>, newContent: SiteContent, inMemory: AutomationSettings): seq<Row> {
    MockClient.Upserted(rows, SettingsRow(ContentValue(newContent),
      KeptSibling(StoredSettings(rows), "automations", AutomationsValue(inMemory))))
  }

  /** The settings table after `updateAutomations(newSettings)`, the mirror image. */
  function AutomationsWrite(rows: seq<Row>, newSettings: AutomationSettings, inMemory: SiteContent): seq<Row> {
    MockClient.Upserted(rows, SettingsRow(KeptSibling(StoredSettings(rows), "content", ContentValue(inMemory)),
      AutomationsValue(newSettings)))
  }

  /** A content write stores the new content and keeps the stored automations; only
      when none (or none truthy) are stored do the in-memory ones take their place. */
  lemma ContentWriteKeepsAutomations(rows: seq<Row>, newContent: SiteContent, inMemory: AutomationSettings)
    ensures StoredSettings(ContentWrite(rows, newContent, inMemory)).Some?
    ensures var before := StoredSettings(rows);
      var after := StoredSettings(ContentWrite(rows, newContent, inMemory)).value;
      && Field(after, "content") == ContentValue(newContent)
      && (before.Some? && Truthy(Field(before.value, "automations")) ==>
            Field(after, "automations") == Field(before.value, "automations"))
      && (!(before.Some? && Truthy(Field(before.value, "automations"))) ==>
            Field(after, "automations") == AutomationsValue(inMemory))
  {
    SettingsReadBack(rows, ContentValue(newContent),
      KeptSibling(StoredSettings(rows), "automations", AutomationsValue(inMemory)));
  }

  /** An automations write stores the new switches and keeps the stored content. */
  lemma AutomationsWriteKeepsContent(rows: seq<Row>, newSettings: AutomationSettings, inMemory: SiteContent)
    ensures StoredSettings(AutomationsWrite(rows, newSettings, inMemory)).Some?
    ensures var before := StoredSettings(rows);
      var after := StoredSettings(AutomationsWrite(rows, newSettings, inMemory)).value;
      && Field(after, "automations") == AutomationsValue(newSettings)
      && (before.Some? && Truthy(Field(before.value, "content")) ==>
            Field(after, "content") == Field(before.value, "content"))
      && (!(before.Some? && Truthy(Field(before.value, "content"))) ==>
            Field(after, "content") == ContentValue(inMemory))
  {
    SettingsReadBack(rows, KeptSibling(StoredSettings(rows), "content", ContentValue(inMemory)),
      AutomationsValue(newSettings));
  }

  /** The settings table after `updateContent` as written: `current` is always null,
      so the in-memory automations are written whatever is stored. */
  function ContentWriteAsWritten(rows: seq<Row>, newContent: SiteContent, inMemory: AutomationSettings): seq<Row> {
    MockClient.Upserted(rows, SettingsRow(ContentValue(newContent),
      KeptSibling(None, "automations", AutomationsValue(inMemory))))
  }

  /** The settings table after `updateAutomations` as written: the in-memory copy is
      written whatever is stored. */
  function AutomationsWriteAsWritten(rows: seq<Row>, newSettings: AutomationSettings, inMemory: SiteContent): seq<Row> {
    MockClient.Upserted(rows, SettingsRow(KeptSibling(None, "content", ContentValue(inMemory)),
      AutomationsValue(newSettings)))
  }

  /** As written, a content write stores the in-memory automations, so stored
      switches that differ from them are lost. */
  lemma ContentWriteAsWrittenOverwrites(rows: seq<Row>, newContent: SiteContent, inMemory: AutomationSettings)
    ensures StoredSettings(ContentWriteAsWritten(rows, newContent, inMemory)).Some?
    ensures var before := StoredSettings(rows);
      var after := StoredSettings(ContentWriteAsWritten(rows, newContent, inMemory)).value;
      && Field(after, "content") == ContentValue(newContent)
      && Field(after, "automations") == AutomationsValue(inMemory)
      && (before.Some? && Field(before.value, "automations") != AutomationsValue(inMemory) ==>
            Field(after, "automations") != Field(before.value, "automations"))
  {
    SettingsReadBack(rows, ContentValue(newContent), AutomationsValue(inMemory));
  }

  /** As written, an automations write stores the in-memory copy, so stored copy that
      differs from it is lost. */
  lemma AutomationsWriteAsWrittenOverwrites(rows: seq<Row>, newSettings: AutomationSettings, inMemory: SiteContent)
    ensures StoredSettings(AutomationsWriteAsWritten(rows, newSettings, inMemory)).Some?
    ensures var before := StoredSettings(rows);
      var after := StoredSettings(AutomationsWriteAsWritten(rows, newSettings, inMemory)).value;
      && Field(after, "automations") == AutomationsValue(newSettings)
      && Field(after, "content") == ContentValue(inMemory)
      && (before.Some? && Field(before.value, "content") != ContentValue(inMemory) ==>
            Field(after, "content") != Field(before.value, "content"))
  {
    SettingsReadBack(rows, ContentValue(inMemory), AutomationsValue(newSettings));
  }

  // ----- the seed step -----

  /** The recovery admin the seed step writes when no admin has the recovery email. */
  function RecoveryAdminRow(): Row {
    map["email" := Str(RecoveryEmail), "access_code" := Str(RecoveryCode),
        "name" := Str("GigSpace Owner"), "role" := Str("owner")]
  }

  function SettingsPresent(slots: map<string, MockClient.Slot>): bool {
    StoredSettings(MockClient.ReadSlot(slots, "site_settings")).Some?
  }

  function RecoveryAdminPresent(slots: map<string, MockClient.Slot>): bool {
    MockClient.Where(MockClient.ReadSlot(slots, "admins"), [MockClient.Eq("email", Str(RecoveryEmail))]) != []
  }

  /** The tables after the seed step: the settings row with id 1 and the recovery admin
      are each written only when absent. */
  function SeededSlots(slots: map<string, MockClient.Slot>, content: SiteContent,
                       automations: AutomationSettings, now: nat): map<string, MockClient.Slot>
  {
    var settings := MockClient.ReadSlot(slots, "site_settings");
    var withSettings :=
      if SettingsPresent(slots) then slots
      else slots["site_settings" := MockClient.Stored(
        settings + [MockClient.WithGeneratedId(SettingsRow(ContentValue(content), AutomationsValue(automations)), now)])];
    var admins := MockClient.ReadSlot(withSettings, "admins");
    if RecoveryAdminPresent(withSettings) then withSettings
    else withSettings["admins" := MockClient.Stored(admins + [MockClient.WithGeneratedId(RecoveryAdminRow(), now)])]
  }

  /** Appending a row with id 1 leaves the settings row present. */
  lemma SettingsAfterInsert(rows: seq<Row>, row: Row)
    requires Field(row, "id") == Num(1)
    ensures StoredSettings(rows + [row]).Some?
  {
    var idFilter := [MockClient.Eq("id", Num(1))];
    MockClient.WhereAppend(rows, [row], idFilter);
    assert MockClient.MatchesAll(row, idFilter) by {
      assert idFilter[0] == MockClient.Eq("id", Num(1));
    }
    assert row in MockClient.Where([row], idFilter);
  }

  /** Appending a row with the recovery email leaves the recovery admin present. */
  lemma AdminAfterInsert(rows: seq<Row>, row: Row)
    requires Field(row, "email") == Str(RecoveryEmail)
    ensures MockClient.Where(rows + [row], [MockClient.Eq("email", Str(RecoveryEmail))]) != []
  {
    var emailFilter := [MockClient.Eq("email", Str(RecoveryEmail))];
    MockClient.WhereAppend(rows, [row], emailFilter);
    assert MockClient.MatchesAll(row, emailFilter) by {
      assert emailFilter[0] == MockClient.Eq("email", Str(RecoveryEmail));
    }
    assert row in MockClient.Where([row], emailFilter);
  }

  /** After the seed step both the settings row and the recovery admin are present. */
  lemma SeedEstablishes(slots: map<string, MockClient.Slot>, content: SiteContent,
                        automations: AutomationSettings, now: nat)
    ensures SettingsPresent(SeededSlots(slots, content, automations, now))
    ensures RecoveryAdminPresent(SeededSlots(slots, content, automations, now))
  {
    var settingsRow := MockClient.WithGeneratedId(SettingsRow(ContentValue(content), AutomationsValue(automations)), now);
    var withSettings :=
      if SettingsPresent(slots) then slots
      else slots["site_settings" := MockClient.Stored(MockClient.ReadSlot(slots, "site_settings") + [settingsRow])];
    if !SettingsPresent(slots) {
      assert Field(SettingsRow(ContentValue(content), AutomationsValue(automations)), "id") == Num(1);
      SettingsAfterInsert(MockClient.ReadSlot(slots, "site_settings"), settingsRow);
      MockClient.ReadAfterWrite(slots, "site_settings", MockClient.ReadSlot(slots, "site_settings") + [settingsRow], "admins");
    }
    assert SettingsPresent(withSettings);
    var adminRow := MockClient.WithGeneratedId(RecoveryAdminRow(), now);
    if !RecoveryAdminPresent(withSettings) {
      var admins := MockClient.ReadSlot(withSettings, "admins");
      assert Field(RecoveryAdminRow(), "email") == Str(RecoveryEmail);
      AdminAfterInsert(admins, adminRow);
      MockClient.ReadAfterWrite(withSettings, "admins", admins + [adminRow], "site_settings");
    }
  }

  /** Repeating the seed step changes nothing, whatever content, settings and time the
      second run sees. */
  lemma SeedIdempotent(slots: map<string, MockClient.Slot>, content: SiteContent, automations: AutomationSettings,
                       now: nat, content2: SiteContent, automations2: AutomationSettings, now2: nat)
    ensures SeededSlots(SeededSlots(slots, content, automations, now), content2, automations2, now2)
            == SeededSlots(slots, content, automations, now)
  {
    SeedEstablishes(slots, content, automations, now);
  }

  /** The tables after the seed step as written: both look-ups come back empty, so the
      settings row and the recovery admin are appended on every run. */
  function SeededSlotsAsWritten(slots: map<string, MockClient.Slot>, content: SiteContent,
                                automations: AutomationSettings, now: nat): map<string, MockClient.Slot>
  {
    var settings := MockClient.ReadSlot(slots, "site_settings");
    var withSettings := slots["site_settings" := MockClient.Stored(
      settings + [MockClient.WithGeneratedId(SettingsRow(ContentValue(content), AutomationsValue(automations)), now)])];
    var admins := MockClient.ReadSlot(withSettings, "admins");
    withSettings["admins" := MockClient.Stored(admins + [MockClient.WithGeneratedId(RecoveryAdminRow(), now)])]
  }

  /** Appending a row that matches the filters adds it at the end of what they select. */
  lemma WhereSnocMatching(rows: seq<Row>, row: Row, fs: seq<MockClient.Filter>)
    requires MockClient.MatchesAll(row, fs)
    ensures MockClient.Where(rows + [row], fs) == MockClient.Where(rows, fs) + [row]
  {
    MockClient.WhereAppend(rows, [row], fs);
    assert [row][1..] == [];
  }

  /** As written, every seed adds one more settings row with id 1 and one more recovery
      admin, and keeps every row already there. */
  lemma SeedAsWrittenAppends(slots: map<string, MockClient.Slot>, content: SiteContent,
                             automations: AutomationSettings, now: nat)
    ensures var after := SeededSlotsAsWritten(slots, content, automations, now);
      var idFilter := [MockClient.Eq("id", Num(1))];
      var emailFilter := [MockClient.Eq("email", Str(RecoveryEmail))];
      && MockClient.ReadSlot(after, "site_settings")[..|MockClient.ReadSlot(slots, "site_settings")|]
           == MockClient.ReadSlot(slots, "site_settings")
      && MockClient.ReadSlot(after, "admins")[..|MockClient.ReadSlot(slots, "admins")|]
           == MockClient.ReadSlot(slots, "admins")
      && |MockClient.Where(MockClient.ReadSlot(after, "site_settings"), idFilter)|
           == |MockClient.Where(MockClient.ReadSlot(slots, "site_settings"), idFilter)| + 1
      && |MockClient.Where(MockClient.ReadSlot(after, "admins"), emailFilter)|
           == |MockClient.Where(MockClient.ReadSlot(slots, "admins"), emailFilter)| + 1
  {
    var idFilter := [MockClient.Eq("id", Num(1))];
    var emailFilter := [MockClient.Eq("email", Str(RecoveryEmail))];
    var settingsRow := MockClient.WithGeneratedId(SettingsRow(ContentValue(content), AutomationsValue(automations)), now);
    var adminRow := MockClient.WithGeneratedId(RecoveryAdminRow(), now);
    assert MockClient.MatchesAll(settingsRow, idFilter) by {
      assert Field(SettingsRow(ContentValue(content), AutomationsValue(automations)), "id") == Num(1);
      assert idFilter[0] == MockClient.Eq("id", Num(1));
    }
    assert MockClient.MatchesAll(adminRow, emailFilter) by {
      assert Field(RecoveryAdminRow(), "email") == Str(RecoveryEmail);
      assert emailFilter[0] == MockClient.Eq("email", Str(RecoveryEmail));
    }
    WhereSnocMatching(MockClient.ReadSlot(slots, "site_settings"), settingsRow, idFilter);
    WhereSnocMatching(MockClient.ReadSlot(slots, "admins"), adminRow, emailFilter);
  }

  /** As written the seed step is not idempotent: a second run leaves a settings table
      one row longer than the first run did. */
  lemma SeedAsWrittenNotIdempotent(slots: map<string, MockClient.Slot>, content: SiteContent,
                                   automations: AutomationSettings, now: nat)
    ensures var once := SeededSlotsAsWritten(slots, content, automations, now);
      var twice := SeededSlotsAsWritten(once, content, automations, now);
      && |MockClient.ReadSlot(twice, "site_settings")| == |MockClient.ReadSlot(once, "site_settings")| + 1
      && twice != once
  {
    var once := SeededSlotsAsWritten(slots, content, automations, now);
    var twice := SeededSlotsAsWritten(once, content, automations, now);
    assert |MockClient.ReadSlot(twice, "site_settings")| == |MockClient.ReadSlot(once, "site_settings")| + 1;
  }

  // ----- login -----

  function CredentialFilters(email: string, code: string): seq<MockClient.Filter> {
    [MockClient.Eq("email", Str(email)), MockClient.Eq("access_code", Str(code))]
  }

  /** The database login: the first admin row whose email and access code loosely
      equal the given ones, with `accessCode` read from `access_code`. */
  function LookupAdmin(rows: seq<Row>, email: string, code: string): Option<AdminUser> {
    match First(MockClient.Where(rows, CredentialFilters(email, code)))
    case Some(r) => Some(AdminFromRow(r))
    case None => None
  }

  /** Who a login with these credentials signs in as. */
  function LoginResult(rows: seq<Row>, email: string, code: string): Option<AdminUser> {
    if email == RecoveryEmail && code == RecoveryCode then Some(RecoveryUser()) else LookupAdmin(rows, email, code)
  }

  predicate CredentialsMatch(r: Row, email: string, code: string) {
    LooseEq(Field(r, "email"), Str(email)) && LooseEq(Field(r, "access_code"), Str(code))
  }

  /** A database login succeeds exactly when some stored admin matches both the email
      and the access code, and then yields such a row with its access code copied. */
  lemma LookupAdminSpec(rows: seq<Row>, email: string, code: string)
    ensures LookupAdmin(rows, email, code).Some? <==> exists r :: r in rows && CredentialsMatch(r, email, code)
    ensures LookupAdmin(rows, email, code).Some? ==>
      exists r :: r in rows && CredentialsMatch(r, email, code)
        && LookupAdmin(rows, email, code) == Some(AdminFromRow(r))
        && LookupAdmin(rows, email, code).value.accessCode == StrOf(Field(r, "access_code"))
  {
    var fs := CredentialFilters(email, code);
    forall r ensures MockClient.MatchesAll(r, fs) <==> CredentialsMatch(r, email, code) {
      assert fs[0] == MockClient.Eq("email", Str(email)) && fs[1] == MockClient.Eq("access_code", Str(code));
    }
    var found := MockClient.Where(rows, fs);
    if exists r :: r in rows && CredentialsMatch(r, email, code) {
      var r :| r in rows && CredentialsMatch(r, email, code);
      assert r in found;
    }
    if |found| > 0 {
      assert found[0] in found;
    }
  }

  /** Who a login signs in as with `single()` as written: the table lookup never
      yields a row, so only the recovery credential works. */
  function LoginResultAsWritten(email: string, code: string): Option<AdminUser> {
    if email == RecoveryEmail && code == RecoveryCode then Some(RecoveryUser()) else None
  }

  /** A stored admin whose email and code match would sign in through the lookup, but
      as written the same credentials are refused. */
  lemma LoginAsWrittenIgnoresTable(rows: seq<Row>, email: string, code: string)
    requires !(email == RecoveryEmail && code == RecoveryCode)
    ensures LoginResultAsWritten(email, code) == None
    ensures (exists r :: r in rows && CredentialsMatch(r, email, code)) <==> LoginResult(rows, email, code).Some?
  {
    LookupAdminSpec(rows, email, code);
  }

  // ----- list transforms -----

  /** `projects.filter(p => p.status === 'published')`. */
  function PublicProjects(ps: seq<Project>): seq<Project> {
    Lists.Filter(ps, (p: Project) => p.status == Published)
  }

  /** The public list is exactly the published projects. */
  lemma PublicProjectsSpec(ps: seq<Project>)
    ensures forall i :: 0 <= i < |PublicProjects(ps)| ==> PublicProjects(ps)[i] in ps && PublicProjects(ps)[i].status == Published
    ensures forall i :: 0 <= i < |ps| && ps[i].status == Published ==> ps[i] in PublicProjects(ps)
  {
  }

  /** ... in their original order. */
  lemma PublicProjectsOrder(a: seq<Project>, b: seq<Project>)
    ensures PublicProjects(a + b) == PublicProjects(a) + PublicProjects(b)
  {
    Lists.FilterAppend(a, b, (p: Project) => p.status == Published);
  }

  /** `prev.map(p => p.id === updated.id ? updated : p)`. */
  function ReplaceProject(ps: seq<Project>, updated: Project): (r: seq<Project>)
    ensures |r| == |ps|
    ensures forall i :: 0 <= i < |ps| ==> r[i].id == ps[i].id
    ensures forall i :: 0 <= i < |ps| && ps[i].id != updated.id ==> r[i] == ps[i]
    ensures forall i :: 0 <= i < |ps| && ps[i].id == updated.id ==> r[i] == updated
  {
    seq(|ps|, i requires 0 <= i < |ps| => if ps[i].id == updated.id then updated else ps[i])
  }

  /** `prev.filter(p => p.id !== id)`. */
  function WithoutProject(ps: seq<Project>, id: string): seq<Project> {
    Lists.Filter(ps, (p: Project) => p.id != id)
  }

  /** Deleting removes every project with that id and keeps all the others, in order. */
  lemma WithoutProjectSpec(ps: seq<Project>, id: string)
    ensures forall i :: 0 <= i < |WithoutProject(ps, id)| ==> WithoutProject(ps, id)[i].id != id
    ensures forall i :: 0 <= i < |ps| && ps[i].id != id ==> ps[i] in WithoutProject(ps, id)
    ensures (forall i :: 0 <= i < |ps| ==> ps[i].id != id) ==> WithoutProject(ps, id) == ps
  {
    if forall i :: 0 <= i < |ps| ==> ps[i].id != id {
      Lists.FilterAll(ps, (p: Project) => p.id != id);
    }
  }

  /** `{ ...p, views: (p.views || 0) + 1 }` for the project with that id. */
  function IncrementViews(ps: seq<Project>, id: string): (r: seq<Project>)
    ensures |r| == |ps|
    ensures forall i :: 0 <= i < |ps| ==> r[i].id == ps[i].id
    ensures forall i :: 0 <= i < |ps| && ps[i].id != id ==> r[i] == ps[i]
    ensures forall i :: 0 <= i < |ps| && ps[i].id == id ==>
      r[i].views == ps[i].views + 1 && r[i].(views := ps[i].views) == ps[i]
  {
    seq(|ps|, i requires 0 <= i < |ps| => if ps[i].id == id then ps[i].(views := ps[i].views + 1) else ps[i])
  }

  /** `xs.find(x => idOf(x) === id)`: the first element carrying that id, if there is one.
      The program looks projects and applications up this way. */
  function FindById<T>(xs: seq<T>, idOf: T -> string, id: string): (r: Option<T>)
    ensures r.Some? <==> exists k :: 0 <= k < |xs| && idOf(xs[k]) == id
    ensures r.Some? ==> exists k :: (0 <= k < |xs| && xs[k] == r.value && idOf(xs[k]) == id
      && forall j :: 0 <= j < k ==> idOf(xs[j]) != id)
  {
    if |xs| == 0 then None
    else if idOf(xs[0]) == id then Some(xs[0])
    else
      var r := FindById(xs[1..], idOf, id);
      assert forall k :: 1 <= k < |xs| ==> xs[k] == xs[1..][k - 1];
      r
  }

  function ProjectId(p: Project): string { p.id }

  function ApplicationId(a: JobApplication): string { a.id }

  /** `prev.map(app => app.id === id ? { ...app, status } : app)`. */
  function SetApplicationStatus(apps: seq<JobApplication>, id: string, status: ApplicationStatus): (r: seq<JobApplication>)
    ensures |r| == |apps|
    ensures forall i :: 0 <= i < |apps| ==> r[i].id == apps[i].id
    ensures forall i :: 0 <= i < |apps| && apps[i].id != id ==> r[i] == apps[i]
    ensures forall i :: 0 <= i < |apps| && apps[i].id == id ==>
      r[i].status == status && r[i].(status := apps[i].status) == apps[i]
  {
    seq(|apps|, i requires 0 <= i < |apps| => if apps[i].id == id then apps[i].(status := status) else apps[i])
  }

  /** `siteContent.emailTemplates.applicationApproved`. */
  function ApprovalTemplate(c: SiteContent): Option<string> {
    if "emailTemplates" in c && "applicationApproved" in c["emailTemplates"] then
      Some(c["emailTemplates"]["applicationApproved"])
    else None
  }

  /** The approval email: the template with every newline turned into `<br/>`, in one
      paragraph. */
  function ApprovalEmail(to: string, template: string): Email {
    Email(to, "Your Application to GigSpace", "<p>" + Text.ReplaceNewlines(template, "<br/>") + "</p>")
  }

  /** The approval email goes to the applicant, keeps no raw newline, and carries a
      one-line template unchanged. */
  lemma ApprovalEmailSpec(to: string, template: string)
    ensures ApprovalEmail(to, template).to == to
    ensures '\n' !in ApprovalEmail(to, template).html
    ensures '\n' !in template ==> ApprovalEmail(to, template).html == "<p>" + template + "</p>"
  {
    Text.ReplaceNewlinesRemovesAll(template, "<br/>");
    if '\n' !in template {
      Text.ReplaceNewlinesNoNewline(template, "<br/>");
    }
  }

  /** One notification per team member, in list order. */
  function NotificationEmails(admins: seq<AdminUser>, inputs: JoinFormInputs): (r: seq<Email>)
    ensures |r| == |admins|
    ensures forall i :: 0 <= i < |admins| ==> r[i].to == admins[i].email && r[i].subject == "New Application: " + inputs.role
  {
    seq(|admins|, i requires 0 <= i < |admins| =>
      Email(admins[i].email, "New Application: " + inputs.role,
            "<p>New application from " + inputs.name + " for " + inputs.role + ".</p><p><a href=\"" + inputs.portfolio + "\">View Portfolio</a></p>"))
  }

  const AutoReplyTail: string := ",</p><p>Thanks for reaching out! We've received your message and will get back to you shortly.</p>"

  function AutoReplyEmail(inputs: ContactFormInputs): Email {
    Email(inputs.email, "We've received your message: " + inputs.subject,
          "<p>Hi " + inputs.name + AutoReplyTail)
  }

  function ProjectsOf(rows: seq<Row>): seq<Project> {
    seq(|rows|, i requires 0 <= i < |rows| => ProjectFromRow(rows[i]))
  }

  function MessagesOf(rows: seq<Row>): seq<Message> {
    seq(|rows|, i requires 0 <= i < |rows| => MessageFromRow(rows[i]))
  }

  function ApplicationsOf(rows: seq<Row>): seq<JobApplication> {
    seq(|rows|, i requires 0 <= i < |rows| => ApplicationFromRow(rows[i]))
  }

  function AdminsOf(rows: seq<Row>): seq<AdminUser> {
    seq(|rows|, i requires 0 <= i < |rows| => AdminFromRow(rows[i]))
  }

  /** The rows a project list is stored as: each project's columns under its own id. */
  function StoredProjectRows(ps: seq<Project>): seq<Row> {
    seq(|ps|, i requires 0 <= i < |ps| => Merge(map["id" := Str(ps[i].id)], ProjectRow(ps[i], ps[i].views)))
  }

  /** Fetching the stored rows of a project list gives the list back. */
  lemma ProjectsOfRoundTrip(ps: seq<Project>)
    requires forall i :: 0 <= i < |ps| ==> CanonicalStatus(ps[i].status)
    ensures ProjectsOf(StoredProjectRows(ps)) == ps
  {
    var r := ProjectsOf(StoredProjectRows(ps));
    forall i | 0 <= i < |ps| ensures r[i] == ps[i] {
      ProjectRoundTrip(ps[i], ps[i].id, ps[i].views);
    }
  }

  /** The rows `addMessage` leaves for a list of messages. */
  function StoredMessageRows(ms: seq<Message>): seq<Row> {
    seq(|ms|, i requires 0 <= i < |ms| => Merge(map["id" := Str(ms[i].id)],
      MessageRow(ContactFormInputs(ms[i].name, ms[i].email, ms[i].subject, ms[i].message), ms[i].date)))
  }

  /** Fetching stored messages gives them back, each unread as it was written; a list
      of unread messages comes back unchanged. */
  lemma MessagesOfRoundTrip(ms: seq<Message>)
    ensures |MessagesOf(StoredMessageRows(ms))| == |ms|
    ensures forall i :: 0 <= i < |ms| ==> MessagesOf(StoredMessageRows(ms))[i] == ms[i].(read := false)
    ensures (forall i :: 0 <= i < |ms| ==> !ms[i].read) ==> MessagesOf(StoredMessageRows(ms)) == ms
  {
    var r := MessagesOf(StoredMessageRows(ms));
    forall i | 0 <= i < |ms| ensures r[i] == ms[i].(read := false) {
      MessageRoundTrip(ContactFormInputs(ms[i].name, ms[i].email, ms[i].subject, ms[i].message), ms[i].date, ms[i].id);
    }
  }

  /** The rows `addApplication` and then `updateApplicationStatus` leave for a list of
      applications: the submitted columns under the id, with the current status. */
  function StoredApplicationRows(apps: seq<JobApplication>): seq<Row> {
    seq(|apps|, i requires 0 <= i < |apps| => StoredApplicationRow(apps[i]))
  }

  function StoredApplicationRow(a: JobApplication): Row {
    Merge(Merge(map["id" := Str(a.id)],
                ApplicationRow(JoinFormInputs(a.name, a.email, a.role, a.portfolio, a.motivation), a.date)),
          map["status" := Str(ApplicationStatusName(a.status))])
  }

  /** One application reads back from its stored row. */
  lemma StoredApplicationRoundTrip(a: JobApplication)
    requires CanonicalApplicationStatus(a.status)
    ensures ApplicationFromRow(StoredApplicationRow(a)) == a
  {
    var inputs := JoinFormInputs(a.name, a.email, a.role, a.portfolio, a.motivation);
    var base := Merge(map["id" := Str(a.id)], ApplicationRow(inputs, a.date));
    var r := StoredApplicationRow(a);
    ApplicationRoundTrip(inputs, a.date, a.id);
    assert Field(r, "status") == Str(ApplicationStatusName(a.status));
    assert forall k :: k != "status" ==> Field(r, k) == Field(base, k);
    ApplicationStatusRoundTrip(a.status);
  }

  /** Fetching stored applications gives them back with their statuses. */
  lemma ApplicationsOfRoundTrip(apps: seq<JobApplication>)
    requires forall i :: 0 <= i < |apps| ==> CanonicalApplicationStatus(apps[i].status)
    ensures ApplicationsOf(StoredApplicationRows(apps)) == apps
  {
    var r := ApplicationsOf(StoredApplicationRows(apps));
    forall i | 0 <= i < |apps| ensures r[i] == apps[i] {
      StoredApplicationRoundTrip(apps[i]);
    }
  }

  /** The rows `addAdmin` leaves for a team. */
  function StoredAdminRows(team: seq<AdminUser>): seq<Row> {
    seq(|team|, i requires 0 <= i < |team| => Merge(map["id" := Str(team[i].id)], AdminRow(team[i])))
  }

  /** Fetching the stored team gives it back, `accessCode` restored from `access_code`. */
  lemma AdminsOfRoundTrip(team: seq<AdminUser>)
    requires forall i :: 0 <= i < |team| ==> CanonicalRole(team[i].role)
    ensures AdminsOf(StoredAdminRows(team)) == team
  {
    var r := AdminsOf(StoredAdminRows(team));
    forall i | 0 <= i < |team| ensures r[i] == team[i] {
      AdminRoundTrip(team[i], team[i].id);
    }
  }

  /** A new project reads back from its stored row with the generated id and no views. */
  lemma AddedProject(p: Project, now: nat)
    requires CanonicalStatus(p.status)
    ensures ProjectFromRow(MockClient.WithGeneratedId(ProjectRow(p, 0), now))
            == p.(id := Text.DecimalString(now), views := 0)
  {
    ProjectRoundTrip(p, Text.DecimalString(now), 0);
  }

  // ----- what the top-level component renders -----

  /** Maintenance shows to visitors who are not admins. */
  predicate MaintenanceActive(automations: AutomationSettings, isAdmin: bool) {
    automations.maintenanceMode && !isAdmin
  }

  datatype Screen = LoadingScreen | MaintenanceScreen | DashboardScreen | PublicPage(route: string)

  /** The screen for a route: a spinner while loading; under maintenance only `/admin`
      reaches the dashboard and every other route the maintenance notice. */
  function ScreenFor(loading: bool, automations: AutomationSettings, isAdmin: bool, route: string): (sc: Screen)
    ensures loading <==> sc == LoadingScreen
    ensures !loading ==> (sc == DashboardScreen <==> route == "/admin")
    ensures sc == MaintenanceScreen <==> !loading && MaintenanceActive(automations, isAdmin) && route != "/admin"
    ensures sc.PublicPage? ==> !MaintenanceActive(automations, isAdmin)
  {
    if loading then LoadingScreen
    else if MaintenanceActive(automations, isAdmin) then
      if route == "/admin" then DashboardScreen else MaintenanceScreen
    else if route == "/admin" then DashboardScreen
    else PublicPage(route)
  }

  /** All of the store's state, to say in one clause what an action leaves alone. */
  datatype StoreState = StoreState(
    loading: bool,
    isAdmin: bool,
    currentUser: Option<AdminUser>,
    admins: seq<AdminUser>,
    projects: seq<Project>,
    messages: seq<Message>,
    applications: seq<JobApplication>,
    siteContent: SiteContent,
    automations: AutomationSettings,
    outbox: seq<Email>)

  class Store {
    const db: MockClient.Storage
    /** The demo projects shown while the projects table is empty. */
    const fallbackProjects: seq<Project>
    var loading: bool
    var isAdmin: bool
    var currentUser: Option<AdminUser>
    var admins: seq<AdminUser>
    var projects: seq<Project>
    var messages: seq<Message>
    var applications: seq<JobApplication>
    var siteContent: SiteContent
    var automations: AutomationSettings
    var outbox: seq<Email>

    function State(): StoreState
      reads this
    {
      StoreState(loading, isAdmin, currentUser, admins, projects, messages, applications,
                 siteContent, automations, outbox)
    }

    /** The initial state: loading, not an admin, empty lists, the default copy and the
        default switches. */
    constructor (db: MockClient.Storage, defaultContent: SiteContent, defaultProjects: seq<Project>)
      ensures this.db == db && fallbackProjects == defaultProjects
      ensures State() == StoreState(true, false, None, [], [], [], [], defaultContent, DefaultAutomations(), [])
    {
      this.db := db;
      fallbackProjects := defaultProjects;
      loading := true;
      isAdmin := false;
      currentUser := None;
      admins := [];
      projects := [];
      messages := [];
      applications := [];
      siteContent := defaultContent;
      automations := DefaultAutomations();
      outbox := [];
    }

    /** `fetchPublicData`: the projects newest first, or the demo projects when there are
        none; the stored settings merged into the copy and the switches. */
    method FetchPublicData()
      modifies this
      ensures var q := MockClient.Query(db.Get("projects"), [], Some(RowSort.Ordering("date", false)));
        var settings := StoredSettings(db.Get("site_settings"));
        State() == old(State()).(
          loading := false,
          projects := if |q| > 0 then ProjectsOf(q) else fallbackProjects,
          siteContent := SettingsContent(old(siteContent), settings),
          automations := SettingsAutomations(old(automations), settings))
    {
      var rows := SelectAll(db, "projects", Some(RowSort.Ordering("date", false)));
      var settings := SelectFirst(db, "site_settings", [MockClient.Eq("id", Num(1))]);
      ghost var before := State();
      projects := if |rows| > 0 then ProjectsOf(rows) else fallbackProjects;
      siteContent := SettingsContent(siteContent, settings);
      automations := SettingsAutomations(automations, settings);
      loading := false;
      assert State() == before.(loading := false, projects := projects, siteContent := siteContent, automations := automations);
    }

    /** `fetchAdminData`: messages and applications newest first, and the team. */
    method FetchAdminData()
      modifies this
      ensures var byDate := Some(RowSort.Ordering("date", false));
        State() == old(State()).(
          messages := MessagesOf(MockClient.Query(db.Get("messages"), [], byDate)),
          applications := ApplicationsOf(MockClient.Query(db.Get("applications"), [], byDate)),
          admins := AdminsOf(MockClient.Query(db.Get("admins"), [], None)))
    {
      var msgs := SelectAll(db, "messages", Some(RowSort.Ordering("date", false)));
      messages := MessagesOf(msgs);
      var apps := SelectAll(db, "applications", Some(RowSort.Ordering("date", false)));
      applications := ApplicationsOf(apps);
      var adminList := SelectAll(db, "admins", None);
      admins := AdminsOf(adminList);
    }

    /** `seedDatabaseIfNeeded`: writes the settings row and the recovery admin when each
        is absent. */
    method Seed(now: nat)
      modifies db
      ensures db.slots == SeededSlots(old(db.slots), siteContent, automations, now)
    {
      var settings := SelectFirst(db, "site_settings", [MockClient.Eq("id", Num(1))]);
      if settings.None? {
        var _ := InsertInto(db, "site_settings", SettingsRow(ContentValue(siteContent), AutomationsValue(automations)), now);
      }
      var admin := SelectFirst(db, "admins", [MockClient.Eq("email", Str(RecoveryEmail))]);
      if admin.None? {
        var _ := InsertInto(db, "admins", RecoveryAdminRow(), now);
      }
    }

    /** `handleLogin`: the recovery credential always logs in as the recovery owner and
        runs the seed step; any other credential logs in only as a matching stored
        admin, and otherwise nothing changes. */
    method Login(email: string, code: string, now: nat) returns (user: Option<AdminUser>)
      modifies this, db
      ensures user == LoginResult(old(db.Get("admins")), email, code)
      ensures email == RecoveryEmail && code == RecoveryCode ==>
        && user == Some(RecoveryUser())
        && State() == old(State()).(isAdmin := true, currentUser := user)
        && db.slots == SeededSlots(old(db.slots), old(siteContent), old(automations), now)
      ensures !(email == RecoveryEmail && code == RecoveryCode) ==>
        && user == LookupAdmin(old(db.Get("admins")), email, code)
        && db.slots == old(db.slots)
        && State() == if user.Some? then old(State()).(isAdmin := true, currentUser := user) else old(State())
    {
      if email == RecoveryEmail && code == RecoveryCode {
        user := Some(RecoveryUser());
        isAdmin := true;
        currentUser := user;
        Seed(now);
      } else {
        var data := SelectFirst(db, "admins", CredentialFilters(email, code));
        if data.Some? {
          user := Some(AdminFromRow(data.value));
          isAdmin := true;
          currentUser := user;
        } else {
          user := None;
        }
      }
    }

    /** `handleLogout`: forgets the user and the admin-only lists. */
    method Logout()
      modifies this
      ensures State() == old(State()).(isAdmin := false, currentUser := None, messages := [], applications := [], admins := [])
    {
      isAdmin := false;
      currentUser := None;
      messages := [];
      applications := [];
      admins := [];
    }

    /** `updateContent`: stores the new copy and keeps the stored automations, falling
        back to the in-memory ones only when none are stored. */
    method UpdateContent(newContent: SiteContent)
      modifies this, db
      ensures State() == old(State()).(siteContent := newContent)
      ensures db.slots == old(db.slots)["site_settings" := MockClient.Stored(
        ContentWrite(old(db.Get("site_settings")), newContent, automations))]
    {
      siteContent := newContent;
      var current := SelectFirst(db, "site_settings", [MockClient.Eq("id", Num(1))]);
      UpsertInto(db, "site_settings", SettingsRow(ContentValue(newContent), KeptSibling(current, "automations", AutomationsValue(automations))));
    }

    /** `updateAutomations`: the mirror image of `updateContent`. */
    method UpdateAutomations(newSettings: AutomationSettings)
      modifies this, db
      ensures State() == old(State()).(automations := newSettings)
      ensures db.slots == old(db.slots)["site_settings" := MockClient.Stored(
        AutomationsWrite(old(db.Get("site_settings")), newSettings, siteContent))]
    {
      automations := newSettings;
      var current := SelectFirst(db, "site_settings", [MockClient.Eq("id", Num(1))]);
      UpsertInto(db, "site_settings", SettingsRow(KeptSibling(current, "content", ContentValue(siteContent)), AutomationsValue(newSettings)));
    }

    /** `addAdmin`: stores the member with `access_code` and reloads the admin lists. */
    method AddAdmin(newAdmin: AdminUser, now: nat)
      modifies this, db
      ensures db.slots == old(db.slots)["admins" := MockClient.Stored(
        old(db.Get("admins")) + [MockClient.WithGeneratedId(AdminRow(newAdmin), now)])]
      ensures var byDate := Some(RowSort.Ordering("date", false));
        State() == old(State()).(
          messages := MessagesOf(MockClient.Query(db.Get("messages"), [], byDate)),
          applications := ApplicationsOf(MockClient.Query(db.Get("applications"), [], byDate)),
          admins := AdminsOf(MockClient.Query(db.Get("admins"), [], None)))
    {
      var _ := InsertInto(db, "admins", AdminRow(newAdmin), now);
      FetchAdminData();
    }

    /** `deleteAdmin`: drops the member with that id from the list and the table. */
    method DeleteAdmin(id: string)
      modifies this, db
      ensures State() == old(State()).(admins := Lists.Filter(old(admins), (a: AdminUser) => a.id != id))
      ensures db.slots == old(db.slots)["admins" := MockClient.Stored(
        MockClient.Remaining(old(db.Get("admins")), [MockClient.Eq("id", Str(id))]))]
    {
      admins := Lists.Filter(admins, (a: AdminUser) => a.id != id);
      DeleteWhere(db, "admins", "id", Str(id));
    }

    /** `addProject`: stores the project with no views and puts the stored copy first. */
    method AddProject(project: Project, now: nat)
      modifies this, db
      ensures var row := MockClient.WithGeneratedId(ProjectRow(project, 0), now);
        && db.slots == old(db.slots)["projects" := MockClient.Stored(old(db.Get("projects")) + [row])]
        && State() == old(State()).(projects := [ProjectFromRow(row)] + old(projects))
    {
      var row := InsertInto(db, "projects", ProjectRow(project, 0), now);
      projects := [ProjectFromRow(row)] + projects;
    }

    /** `updateProject`: replaces the project with that id in the list and writes its
        columns over the row with that id. */
    method UpdateProject(p: Project)
      modifies this, db
      ensures State() == old(State()).(projects := ReplaceProject(old(projects), p))
      ensures db.slots == old(db.slots)["projects" := MockClient.Stored(
        MockClient.Patched(old(db.Get("projects")), [MockClient.Eq("id", Str(p.id))], ProjectRow(p, p.views)))]
    {
      projects := ReplaceProject(projects, p);
      UpdateWhere(db, "projects", "id", Str(p.id), ProjectRow(p, p.views));
    }

    /** `incrementProjectView`: one more view in the list, and in the table when the
        project is in the list. */
    method IncrementProjectView(id: string)
      modifies this, db
      ensures State() == old(State()).(projects := IncrementViews(old(projects), id))
      ensures match FindById(old(projects), ProjectId, id)
        case None => db.slots == old(db.slots)
        case Some(p) => db.slots == old(db.slots)["projects" := MockClient.Stored(
          MockClient.Patched(old(db.Get("projects")), [MockClient.Eq("id", Str(id))], map["views" := Num(p.views + 1)]))]
    {
      var found := FindById(projects, ProjectId, id);
      projects := IncrementViews(projects, id);
      if found.Some? {
        UpdateWhere(db, "projects", "id", Str(id), map["views" := Num(found.value.views + 1)]);
      }
    }

    /** `deleteProject`. */
    method DeleteProject(id: string)
      modifies this, db
      ensures State() == old(State()).(projects := WithoutProject(old(projects), id))
      ensures db.slots == old(db.slots)["projects" := MockClient.Stored(
        MockClient.Remaining(old(db.Get("projects")), [MockClient.Eq("id", Str(id))]))]
    {
      projects := WithoutProject(projects, id);
      DeleteWhere(db, "projects", "id", Str(id));
    }

    /** `addMessage`: stores the message unread, puts it first, and sends the auto-reply
        when that switch is on. */
    method AddMessage(inputs: ContactFormInputs, nowIso: string, now: nat)
      modifies this, db
      ensures db.slots == old(db.slots)["messages" := MockClient.Stored(
        old(db.Get("messages")) + [MockClient.WithGeneratedId(MessageRow(inputs, nowIso), now)])]
      ensures State() == old(State()).(
        messages := [Message(Text.DecimalString(now), inputs.name, inputs.email, inputs.subject, inputs.message, nowIso, false)]
                    + old(messages),
        outbox := old(outbox) + if old(automations).autoReplyContact then [AutoReplyEmail(inputs)] else [])
    {
      var row := InsertInto(db, "messages", MessageRow(inputs, nowIso), now);
      MessageRoundTrip(inputs, nowIso, Text.DecimalString(now));
      messages := [MessageFromRow(row)] + messages;
      var reply := if automations.autoReplyContact then [AutoReplyEmail(inputs)] else [];
      outbox := outbox + reply;
    }

    /** `addApplication`: stores the application as pending and notifies every team
        member when that switch is on. */
    method AddApplication(inputs: JoinFormInputs, nowIso: string, now: nat)
      modifies this, db
      ensures db.slots == old(db.slots)["applications" := MockClient.Stored(
        old(db.Get("applications")) + [MockClient.WithGeneratedId(ApplicationRow(inputs, nowIso), now)])]
      ensures State() == old(State()).(
        outbox := old(outbox) + if old(automations).notifyOnApplication then NotificationEmails(old(admins), inputs) else [])
    {
      var _ := InsertInto(db, "applications", ApplicationRow(inputs, nowIso), now);
      if automations.notifyOnApplication && |admins| > 0 {
        outbox := outbox + NotificationEmails(admins, inputs);
      }
    }

    /** `updateApplicationStatus`: sets the status in the list and the table; on approval
        the applicant found in the list before the change gets the approval email. */
    method UpdateApplicationStatus(id: string, status: ApplicationStatus)
      modifies this, db
      ensures db.slots == old(db.slots)["applications" := MockClient.Stored(
        MockClient.Patched(old(db.Get("applications")), [MockClient.Eq("id", Str(id))],
                           map["status" := Str(ApplicationStatusName(status))]))]
      ensures var found := FindById(old(applications), ApplicationId, id);
        var template := ApprovalTemplate(siteContent);
        State() == old(State()).(
          applications := SetApplicationStatus(old(applications), id, status),
          outbox := old(outbox) + if status == Approved && found.Some? && template.Some?
                                  then [ApprovalEmail(found.value.email, template.value)] else [])
    {
      var found := FindById(applications, ApplicationId, id);
      applications := SetApplicationStatus(applications, id, status);
      UpdateWhere(db, "applications", "id", Str(id), map["status" := Str(ApplicationStatusName(status))]);
      if status == Approved && found.Some? {
        var template := ApprovalTemplate(siteContent);
        if template.Some? {
          outbox := outbox + [ApprovalEmail(found.value.email, template.value)];
        }
      }
    }

    /** `fetchPublicData` as written against the local table: the projects load as
        before, but the settings look-up never returns the row, so the copy and the
        switches keep their in-memory values. */
    method FetchPublicDataAsWritten()
      modifies this
      ensures var q := MockClient.Query(db.Get("projects"), [], Some(RowSort.Ordering("date", false)));
        State() == old(State()).(loading := false, projects := if |q| > 0 then ProjectsOf(q) else fallbackProjects)
    {
      var rows := SelectAll(db, "projects", Some(RowSort.Ordering("date", false)));
      var settings := SelectFirstAsWritten(db, "site_settings", [MockClient.Eq("id", Num(1))]);
      projects := if |rows| > 0 then ProjectsOf(rows) else fallbackProjects;
      siteContent := SettingsContent(siteContent, settings);
      automations := SettingsAutomations(automations, settings);
      loading := false;
    }

    /** `seedDatabaseIfNeeded` as written against the local table: neither look-up
        finds its row, so both rows are appended on every run. */
    method SeedAsWritten(now: nat)
      modifies db
      ensures db.slots == SeededSlotsAsWritten(old(db.slots), siteContent, automations, now)
    {
      var settings := SelectFirstAsWritten(db, "site_settings", [MockClient.Eq("id", Num(1))]);
      if settings.None? {
        var _ := InsertInto(db, "site_settings", SettingsRow(ContentValue(siteContent), AutomationsValue(automations)), now);
      }
      var admin := SelectFirstAsWritten(db, "admins", [MockClient.Eq("email", Str(RecoveryEmail))]);
      if admin.None? {
        var _ := InsertInto(db, "admins", RecoveryAdminRow(), now);
      }
    }

    /** `handleLogin` as written against the local table: the recovery credential signs
        in and seeds as written; the table lookup never yields a row, so every other
        credential is refused and nothing changes. */
    method LoginAsWritten(email: string, code: string, now: nat) returns (user: Option<AdminUser>)
      modifies this, db
      ensures user == LoginResultAsWritten(email, code)
      ensures email == RecoveryEmail && code == RecoveryCode ==>
        && State() == old(State()).(isAdmin := true, currentUser := user)
        && db.slots == SeededSlotsAsWritten(old(db.slots), old(siteContent), old(automations), now)
      ensures !(email == RecoveryEmail && code == RecoveryCode) ==>
        State() == old(State()) && db.slots == old(db.slots)
    {
      if email == RecoveryEmail && code == RecoveryCode {
        user := Some(RecoveryUser());
        isAdmin := true;
        currentUser := user;
        SeedAsWritten(now);
      } else {
        var data := SelectFirstAsWritten(db, "admins", CredentialFilters(email, code));
        if data.Some? {
          assert false;
        }
        user := None;
      }
    }

    /** `updateContent` as written against the local table: `current` is always null,
        so the in-memory automations go into the row. */
    method UpdateContentAsWritten(newContent: SiteContent)
      modifies this, db
      ensures State() == old(State()).(siteContent := newContent)
      ensures db.slots == old(db.slots)["site_settings" := MockClient.Stored(
        ContentWriteAsWritten(old(db.Get("site_settings")), newContent, automations))]
    {
      siteContent := newContent;
      var current := SelectFirstAsWritten(db, "site_settings", [MockClient.Eq("id", Num(1))]);
      UpsertInto(db, "site_settings", SettingsRow(ContentValue(newContent), KeptSibling(current, "automations", AutomationsValue(automations))));
    }

    /** `updateAutomations` as written against the local table: the in-memory copy goes
        into the row. */
    method UpdateAutomationsAsWritten(newSettings: AutomationSettings)
      modifies this, db
      ensures State() == old(State()).(automations := newSettings)
      ensures db.slots == old(db.slots)["site_settings" := MockClient.Stored(
        AutomationsWriteAsWritten(old(db.Get("site_settings")), newSettings, siteContent))]
    {
      automations := newSettings;
      var current := SelectFirstAsWritten(db, "site_settings", [MockClient.Eq("id", Num(1))]);
      UpsertInto(db, "site_settings", SettingsRow(KeptSibling(current, "content", ContentValue(siteContent)), AutomationsValue(newSettings)));
    }

    /** `addMessage` as written against the local table: the message is stored, but the
        chain throws, so the list is not updated and no auto-reply is sent. */
    method AddMessageAsWritten(inputs: ContactFormInputs, nowIso: string, now: nat) returns (threw: bool)
      modifies db
      ensures db.slots == old(db.slots)["messages" := MockClient.Stored(
        old(db.Get("messages")) + [MockClient.WithGeneratedId(MessageRow(inputs, nowIso), now)])]
      ensures threw
    {
      threw := InsertSelectAsWritten(db, "messages", MessageRow(inputs, nowIso), now);
    }

    /** `addProject` as written against the local table: stored, but not listed. */
    method AddProjectAsWritten(project: Project, now: nat) returns (threw: bool)
      modifies db
      ensures db.slots == old(db.slots)["projects" := MockClient.Stored(
        old(db.Get("projects")) + [MockClient.WithGeneratedId(ProjectRow(project, 0), now)])]
      ensures threw
    {
      threw := InsertSelectAsWritten(db, "projects", ProjectRow(project, 0), now);
    }

    /** `deleteProject` as written against the local table: gone from the list, still
        in the table. */
    method DeleteProjectAsWritten(id: string) returns (threw: bool)
      modifies this, db
      ensures State() == old(State()).(projects := WithoutProject(old(projects), id))
      ensures db.slots == old(db.slots)["projects" := MockClient.Stored(old(db.Get("projects")))]
      ensures threw
    {
      projects := WithoutProject(projects, id);
      threw := DeleteWhereAsWritten(db, "projects", "id", Str(id));
    }

    /** `updateApplicationStatus` as written against the local table: every stored
        application gets the status, and the chain throws before the approval email. */
    method UpdateApplicationStatusAsWritten(id: string, status: ApplicationStatus) returns (threw: bool)
      modifies this, db
      ensures State() == old(State()).(applications := SetApplicationStatus(old(applications), id, status))
      ensures db.slots == old(db.slots)["applications" := MockClient.Stored(
        MockClient.Patched(old(db.Get("applications")), [], map["status" := Str(ApplicationStatusName(status))]))]
      ensures threw
    {
      applications := SetApplicationStatus(applications, id, status);
      threw := UpdateWhereAsWritten(db, "applications", "id", Str(id), map["status" := Str(ApplicationStatusName(status))]);
    }
  }
}
