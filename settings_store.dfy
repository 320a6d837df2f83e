/** The settings store of store/settingsStore.ts: three independent switches. */
module SettingsStore {

  datatype Settings = Settings(darkMode: bool, notifications: bool, e2eEncryption: bool)

  datatype Toggle = DarkMode | Notifications | E2EEncryption

  /** Dark mode off, notifications and end-to-end encryption on. */
  const Initial: Settings := Settings(false, true, true)

  /** The switch a toggle flips. */
  function Flag(s: Settings, t: Toggle): bool
  {
    match t
    case DarkMode => s.darkMode
    case Notifications => s.notifications
    case E2EEncryption => s.e2eEncryption
  }

  /** The settings after a toggle: its own switch negated, the other two as they were. */
  function Toggled(s: Settings, t: Toggle): (r: Settings)
    ensures Flag(r, t) == !Flag(s, t)
    ensures forall u :: u != t ==> Flag(r, u) == Flag(s, u)
  {
    match t
    case DarkMode => s.(darkMode := !s.darkMode)
    case Notifications => s.(notifications := !s.notifications)
    case E2EEncryption => s.(e2eEncryption := !s.e2eEncryption)
  }

  /** Settings are determined by their three switches. */
  lemma SameFlags(s: Settings, r: Settings)
    requires forall t :: Flag(s, t) == Flag(r, t)
    ensures s == r
  {
    assert Flag(s, DarkMode) == Flag(r, DarkMode);
    assert Flag(s, Notifications) == Flag(r, Notifications);
    assert Flag(s, E2EEncryption) == Flag(r, E2EEncryption);
  }

  /** Toggling twice restores the settings. */
  lemma ToggleTwice(s: Settings, t: Toggle)
    ensures Toggled(Toggled(s, t), t) == s
  {
    SameFlags(Toggled(Toggled(s, t), t), s);
  }

  /** Toggles commute. */
  lemma TogglesCommute(s: Settings, t: Toggle, u: Toggle)
    ensures Toggled(Toggled(s, t), u) == Toggled(Toggled(s, u), t)
  {
    SameFlags(Toggled(Toggled(s, t), u), Toggled(Toggled(s, u), t));
  }

  /** The settings store, its three switches as fields. */
  class Store {
    var darkMode: bool
    var notifications: bool
    var e2eEncryption: bool

    function State(): Settings
      reads this
    {
      Settings(darkMode, notifications, e2eEncryption)
    }

    constructor ()
      ensures State() == Initial
    {
      darkMode := false;
      notifications := true;
      e2eEncryption := true;
    }

    method ToggleDarkMode()
      modifies this
      ensures State() == Toggled(old(State()), DarkMode)
    {
      darkMode := !darkMode;
    }

    method ToggleNotifications()
      modifies this
      ensures State() == Toggled(old(State()), Notifications)
    {
      notifications := !notifications;
    }

    method ToggleE2EEncryption()
      modifies this
      ensures State() == Toggled(old(State()), E2EEncryption)
    {
      e2eEncryption := !e2eEncryption;
    }
  }
}
