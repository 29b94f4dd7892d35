/** The settings screen, src/pages/SettingsPage.jsx: one settings record held
    in the page, changed one key at a time; save and reset only raise a
    toast; five tabs of which one section is shown; the backup-frequency
    select usable only while automatic backup is on. Nothing is stored or
    sent anywhere. */
module SettingsPage {
  import opened Common
  import opened Browser

  /** The keys of the settings record. The page passes only these keys to
      its change handler. */
  datatype Key =
    | SiteName | SiteDescription | ContactEmail | Timezone | Language | DateFormat
    | EmailNotifications | PushNotifications | NewRestaurantAlert | NewDeliveryPersonAlert
    | ComplaintAlert | ReviewAlert
    | TwoFactorAuth | SessionTimeout | PasswordExpiry
    | Theme | AccentColor
    | MaintenanceMode | AutoBackup | BackupFrequency

  /** A checkbox sends its `checked` flag; every other control its text. */
  datatype Value = Flag(on: bool) | Input(text: string)

  type Settings = map<Key, Value>

  /** The record the page starts with. */
  const Defaults: Settings := map[
    SiteName := Input("FoodDash Admin"),
    SiteDescription := Input("Food Delivery Management System"),
    ContactEmail := Input("admin@fooddash.com"),
    Timezone := Input("Asia/Kolkata"),
    Language := Input("en"),
    DateFormat := Input("DD/MM/YYYY"),
    EmailNotifications := Flag(true),
    PushNotifications := Flag(true),
    NewRestaurantAlert := Flag(true),
    NewDeliveryPersonAlert := Flag(true),
    ComplaintAlert := Flag(true),
    ReviewAlert := Flag(false),
    TwoFactorAuth := Flag(false),
    SessionTimeout := Input("30"),
    PasswordExpiry := Input("90"),
    Theme := Input("light"),
    AccentColor := Input("#667eea"),
    MaintenanceMode := Flag(false),
    AutoBackup := Flag(true),
    BackupFrequency := Input("daily")
  ]

  /** Every key has a value from the start, so every control reads one. */
  lemma DefaultsCoverEveryKey(k: Key)
    ensures k in Defaults
  {
  }

  // ---------------------------------------------------------------------------
  // Changing, saving, resetting

  /** `handleSettingChange(key, value)`: `{ ...prev, [key]: value }`. */
  function Change(s: Settings, key: Key, value: Value): (r: Settings)
    ensures key in r && r[key] == value
    ensures forall k :: k != key ==> (k in r <==> k in s) && (k in s ==> r[k] == s[k])
  {
    s[key := value]
  }

  /** Changing a key to the value it already has changes nothing. */
  lemma ChangeToSameValue(s: Settings, key: Key)
    requires key in s
    ensures Change(s, key, s[key]) == s
  {
    assert forall k :: k in Change(s, key, s[key]) <==> k in s;
  }

  /** Of two changes to one key the last wins. */
  lemma LastChangeWins(s: Settings, key: Key, v: Value, w: Value)
    ensures Change(Change(s, key, v), key, w) == Change(s, key, w)
  {
    assert forall k :: k in Change(Change(s, key, v), key, w) <==> k in Change(s, key, w);
  }

  /** Changes to different keys can be made in either order. */
  lemma ChangesCommute(s: Settings, key: Key, other: Key, v: Value, w: Value)
    requires key != other
    ensures Change(Change(s, key, v), other, w) == Change(Change(s, other, w), key, v)
  {
    assert forall k :: k in Change(Change(s, key, v), other, w) <==> k in Change(Change(s, other, w), key, v);
  }

  /** What the page holds: the record, the open tab, the last toast. */
  datatype PageState = PageState(settings: Settings, activeTab: Tab, toast: Toast)

  function Initial(): (p: PageState)
    ensures p.activeTab == General && p.toast == NoToast
  {
    PageState(Defaults, General, NoToast)
  }

  /** `handleSaveSettings`: only a toast; the record is not stored. */
  function Save(p: PageState): (r: PageState)
    ensures r.settings == p.settings && r.activeTab == p.activeTab
    ensures r.toast == SuccessToast("Settings saved successfully!")
  {
    p.(toast := SuccessToast("Settings saved successfully!"))
  }

  /** `handleResetSettings`: a confirmed reset only announces itself; the
      record keeps its edits. */
  function Reset(p: PageState, confirmed: bool): (r: PageState)
    ensures r.settings == p.settings && r.activeTab == p.activeTab
    ensures confirmed ==> r.toast == SuccessToast("Settings reset to default")
    ensures !confirmed ==> r == p
  {
    if confirmed then p.(toast := SuccessToast("Settings reset to default")) else p
  }

  /** Despite its message, a confirmed reset after an edit leaves the record
      different from the defaults. */
  lemma ResetKeepsEdits(key: Key, v: Value)
    requires v != Defaults[key]
    ensures var edited := PageState(Change(Defaults, key, v), General, NoToast);
            Reset(edited, true).settings != Defaults
  {
    var edited := Change(Defaults, key, v);
    assert edited[key] != Defaults[key];
  }

  // ---------------------------------------------------------------------------
  // Tabs

  datatype Tab = General | Notifications | Security | Appearance | System

  /** The navigation buttons, in order. */
  const Tabs: seq<Tab> := [General, Notifications, Security, Appearance, System]

  /** The sections rendered: each is guarded by `activeTab === <its tab>`. */
  function Sections(active: Tab): (r: seq<Tab>)
    ensures forall i :: 0 <= i < |r| ==> r[i] == active
  {
    Filter(Tabs, t => t == active)
  }

  /** Exactly one section is shown, the active tab's. */
  lemma OneSectionShown(active: Tab)
    ensures Sections(active) == [active]
  {
    var k := match active
      case General => 0 case Notifications => 1 case Security => 2 case Appearance => 3 case System => 4;
    assert Tabs[k] == active;
    FilterOne(Tabs, t => t == active, k);
  }

  function SelectTab(p: PageState, t: Tab): (r: PageState)
    ensures r.activeTab == t && r.settings == p.settings
  {
    p.(activeTab := t)
  }

  // ---------------------------------------------------------------------------
  // The backup select

  /** `disabled={!settings.autoBackup}`. */
  predicate BackupSelectEnabled(s: Settings) {
    AutoBackup in s && s[AutoBackup] == Flag(true)
  }

  /** A change made through the controls: a disabled select sends no change
      event. */
  function ControlChange(s: Settings, key: Key, value: Value): (r: Settings)
    ensures key == BackupFrequency && !BackupSelectEnabled(s) ==> r == s
    ensures key != BackupFrequency || BackupSelectEnabled(s) ==> r == Change(s, key, value)
  {
    if key == BackupFrequency && !BackupSelectEnabled(s) then s else Change(s, key, value)
  }

  /** With automatic backup turned off the frequency stays as it was until
      backup is turned on again; turning it on enables the select. */
  lemma BackupFrequencyFollowsAutoBackup(s: Settings, v: Value)
    ensures BackupFrequency in s ==>
              ControlChange(ControlChange(s, AutoBackup, Flag(false)), BackupFrequency, v)[BackupFrequency]
              == s[BackupFrequency]
    ensures ControlChange(ControlChange(s, AutoBackup, Flag(true)), BackupFrequency, v)[BackupFrequency] == v
  {
  }
}
