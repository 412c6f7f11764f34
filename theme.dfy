/** The app-wide dark-mode flag of the client layout, persisted in the
    browser's key-value storage under "darkMode". */
module Theme {
  import opened Lists

  const StorageKey: string := "darkMode"

  /** `JSON.stringify` of a boolean. */
  function ShowFlag(b: bool): (s: string)
    ensures s != ""
  {
    if b then "true" else "false"
  }

  /** `JSON.parse` of a stored flag: it reads back exactly the texts the
      toggle writes, each as the mode it was written for; other text is not
      a flag. */
  function ParseFlag(s: string): (r: Option<bool>)
    ensures forall b :: r == Some(b) <==> s == ShowFlag(b)
  {
    if s == "true" then Some(true)
    else if s == "false" then Some(false)
    else None
  }

  /** The mode after the restore effect: a non-empty stored flag replaces the
      mode, anything else keeps it. */
  function Restored(mode: bool, storage: map<string, string>): (r: bool)
    ensures StorageKey !in storage || storage[StorageKey] == "" ==> r == mode
    ensures StorageKey in storage && ParseFlag(storage[StorageKey]).Some? ==>
      r == ParseFlag(storage[StorageKey]).value
  {
    if StorageKey in storage && storage[StorageKey] != "" then
      match ParseFlag(storage[StorageKey])
      case Some(b) => b
      case None => mode
    else mode
  }

  /** The layout's state and the storage it writes to. */
  class ThemeProvider {
    var darkMode: bool
    var storage: map<string, string>

    /** The layout starts in light mode. */
    constructor (storage: map<string, string>)
      ensures !darkMode && this.storage == storage
    {
      darkMode := false;
      this.storage := storage;
    }

    /** The mount effect: reads "darkMode" back from storage. */
    method Restore()
      modifies this`darkMode
      ensures darkMode == Restored(old(darkMode), storage)
    {
      if StorageKey in storage && storage[StorageKey] != "" {
        match ParseFlag(storage[StorageKey]) {
          case Some(b) => darkMode := b;
          case None =>
        }
      }
    }

    /** `toggleDarkMode`: flips the mode and stores the new value; nothing
        else in storage changes. */
    method Toggle()
      modifies this
      ensures darkMode == !old(darkMode)
      ensures storage == old(storage)[StorageKey := ShowFlag(darkMode)]
    {
      var newMode := !darkMode;
      darkMode := newMode;
      storage := storage[StorageKey := ShowFlag(newMode)];
    }
  }

  /** A reload after a toggle finds the mode the toggle stored, whatever mode
      the reloaded layout started in. */
  lemma RestoreAfterToggle(start: bool, mode: bool, storage: map<string, string>)
    ensures Restored(start, storage[StorageKey := ShowFlag(mode)]) == mode
  {
  }

  /** Two toggles give back the starting mode, with that mode stored. */
  method ToggleTwice(t: ThemeProvider)
    modifies t
    ensures t.darkMode == old(t.darkMode)
    ensures t.storage == old(t.storage)[StorageKey := ShowFlag(old(t.darkMode))]
  {
    t.Toggle();
    t.Toggle();
  }
}
