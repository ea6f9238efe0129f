/** app/settings/page.tsx: the academy settings. Three records (academy,
    notifications, security) are edited field by field through one handler
    that picks the record by a section name; saving only hands them on. */
module SettingsPage {
  /** A setting value: text, a number or a switch. */
  datatype Value = Text(text: string) | Number(number: int) | Flag(on: bool)

  /** One settings record, field name to value. */
  type Settings = map<string, Value>

  function InitialAcademySettings(): Settings {
    map[
      "name" := Text("Coursivo Academy"),
      "description" := Text("Natural Intelligence Meets Digital Learning"),
      "website" := Text("https://coursivo.academy"),
      "email" := Text("contact@coursivo.academy"),
      "phone" := Text("+1 (555) 123-4567"),
      "address" := Text("123 Education Street, Learning City, LC 12345"),
      "logo" := Text("/api/placeholder/100/100"),
      "primaryColor" := Text("#09382f"),
      "secondaryColor" := Text("#8b5cf6"),
      "allowPublicRegistration" := Flag(true),
      "requireEmailVerification" := Flag(true),
      "enableNotifications" := Flag(true),
      "enableAnalytics" := Flag(true),
      "maxStudentsPerCourse" := Number(100),
      "defaultCoursePrice" := Number(99),
      "currency" := Text("USD"),
      "timezone" := Text("America/New_York")
    ]
  }

  function InitialNotificationSettings(): Settings {
    map[
      "emailNotifications" := Flag(true),
      "smsNotifications" := Flag(false),
      "pushNotifications" := Flag(true),
      "courseUpdates" := Flag(true),
      "studentProgress" := Flag(true),
      "systemAlerts" := Flag(true),
      "marketingEmails" := Flag(false)
    ]
  }

  function InitialSecuritySettings(): Settings {
    map[
      "twoFactorAuth" := Flag(false),
      "sessionTimeout" := Number(30),
      "passwordComplexity" := Flag(true),
      "loginAttempts" := Number(5),
      "ipWhitelist" := Text("")
    ]
  }

  /** The three records together: the page's settings state, and what a save hands on. */
  datatype AllSettings = AllSettings(academy: Settings, notifications: Settings, security: Settings)

  function InitialSettings(): AllSettings {
    AllSettings(InitialAcademySettings(), InitialNotificationSettings(), InitialSecuritySettings())
  }

  /** `handleInputChange(section, field, value)`: set one field of the record
      the section names; any other section name changes nothing. */
  function InputChange(s: AllSettings, section: string, field: string, value: Value): AllSettings {
    if section == "academy" then s.(academy := s.academy[field := value])
    else if section == "notifications" then s.(notifications := s.notifications[field := value])
    else if section == "security" then s.(security := s.security[field := value])
    else s
  }

  /** The record a section name selects, if any. */
  function Section(s: AllSettings, section: string): Settings
    requires section in {"academy", "notifications", "security"}
  {
    if section == "academy" then s.academy
    else if section == "notifications" then s.notifications
    else s.security
  }

  /** A change to a known section sets that field of that record, keeps every
      other field of it, and leaves the other two records as they were. */
  lemma InputChangeTouchesOneField(s: AllSettings, section: string, field: string, value: Value)
    requires section in {"academy", "notifications", "security"}
    ensures var t := InputChange(s, section, field, value);
      && field in Section(t, section) && Section(t, section)[field] == value
      && (forall f :: f in Section(s, section) && f != field ==> f in Section(t, section) && Section(t, section)[f] == Section(s, section)[f])
      && Section(t, section).Keys == Section(s, section).Keys + {field}
      && (forall other :: other in {"academy", "notifications", "security"} && other != section ==> Section(t, other) == Section(s, other))
  {
  }

  /** Any other section name leaves all three records unchanged. */
  lemma UnknownSectionIsIgnored(s: AllSettings, section: string, field: string, value: Value)
    requires section !in {"academy", "notifications", "security"}
    ensures InputChange(s, section, field, value) == s
  {
  }

  /** Changes to two different records, or to two different fields, do not
      interfere: applying them in either order gives the same settings. */
  lemma IndependentChangesCommute(s: AllSettings, sec1: string, f1: string, v1: Value, sec2: string, f2: string, v2: Value)
    requires sec1 != sec2 || f1 != f2
    ensures InputChange(InputChange(s, sec1, f1, v1), sec2, f2, v2) == InputChange(InputChange(s, sec2, f2, v2), sec1, f1, v1)
  {
    if sec1 == sec2 && sec1 in {"academy", "notifications", "security"} {
      var m := Section(s, sec1);
      assert m[f1 := v1][f2 := v2] == m[f2 := v2][f1 := v1];
    }
  }

  /** A second change to the same field replaces the first. */
  lemma LastChangeWins(s: AllSettings, section: string, field: string, v1: Value, v2: Value)
    ensures InputChange(InputChange(s, section, field, v1), section, field, v2) == InputChange(s, section, field, v2)
  {
    if section in {"academy", "notifications", "security"} {
      var m := Section(s, section);
      assert m[field := v1][field := v2] == m[field := v2];
    }
  }

  /** The page's state: the open tab and the three records. */
  class SettingsPage {
    var activeTab: string
    var academySettings: Settings
    var notificationSettings: Settings
    var securitySettings: Settings

    function State(): AllSettings
      reads this
    {
      AllSettings(academySettings, notificationSettings, securitySettings)
    }

    constructor ()
      ensures activeTab == "general" && State() == InitialSettings()
    {
      activeTab := "general";
      academySettings := InitialAcademySettings();
      notificationSettings := InitialNotificationSettings();
      securitySettings := InitialSecuritySettings();
    }

    /** The tab bar. */
    method SetActiveTab(tab: string)
      modifies this
      ensures activeTab == tab && State() == old(State())
    {
      activeTab := tab;
    }

    /** `handleInputChange`. */
    method HandleInputChange(section: string, field: string, value: Value)
      modifies this
      ensures State() == InputChange(old(State()), section, field, value)
      ensures activeTab == old(activeTab)
    {
      if section == "academy" {
        academySettings := academySettings[field := value];
      } else if section == "notifications" {
        notificationSettings := notificationSettings[field := value];
      } else if section == "security" {
        securitySettings := securitySettings[field := value];
      }
    }

    /** `handleSaveSettings`: hands the three records on (the source only
        logs them) and changes nothing. */
    method HandleSaveSettings() returns (saved: AllSettings)
      ensures saved == State()
    {
      saved := AllSettings(academySettings, notificationSettings, securitySettings);
    }
  }
}
