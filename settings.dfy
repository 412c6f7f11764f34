/** The settings page: notification switches, data retention, auto-sync,
    language and the transient "saved" notice. */
module Settings {

  /** The three notification channels, switched on and off together as one
      record. */
  datatype Notifications = Notifications(email: bool, push: bool, sms: bool)

  datatype Channel = Email | Push | Sms

  /** `setNotifications(prev => ({ ...prev, c: !prev.c }))`: one channel
      flips, the other two keep their value. */
  function Flip(n: Notifications, c: Channel): (r: Notifications)
    ensures c == Email ==> r.email == !n.email && r.push == n.push && r.sms == n.sms
    ensures c == Push ==> r.push == !n.push && r.email == n.email && r.sms == n.sms
    ensures c == Sms ==> r.sms == !n.sms && r.email == n.email && r.push == n.push
  {
    match c
    case Email => n.(email := !n.email)
    case Push => n.(push := !n.push)
    case Sms => n.(sms := !n.sms)
  }

  /** Flipping a channel twice restores the record. */
  lemma FlipTwice(n: Notifications, c: Channel)
    ensures Flip(Flip(n, c), c) == n
  {
  }

  /** Flips of different channels can be done in either order. */
  lemma FlipsCommute(n: Notifications, c: Channel, d: Channel)
    ensures Flip(Flip(n, c), d) == Flip(Flip(n, d), c)
  {
  }

  class SettingsPanel {
    var notifications: Notifications
    var dataRetention: string
    var autoSync: bool
    var language: string
    var saved: bool

    /** The page's initial state. */
    constructor ()
      ensures notifications == Notifications(true, false, false)
      ensures dataRetention == "1year" && autoSync && language == "en" && !saved
    {
      notifications := Notifications(true, false, false);
      dataRetention := "1year";
      autoSync := true;
      language := "en";
      saved := false;
    }

    /** The email, push and SMS switches. */
    method ToggleChannel(c: Channel)
      modifies this`notifications
      ensures notifications == Flip(old(notifications), c)
    {
      notifications := Flip(notifications, c);
    }

    /** The auto-sync switch flips only `autoSync`. */
    method ToggleAutoSync()
      modifies this`autoSync
      ensures autoSync == !old(autoSync)
    {
      autoSync := !autoSync;
    }

    method SetLanguage(v: string)
      modifies this`language
      ensures language == v
    {
      language := v;
    }

    method SetDataRetention(v: string)
      modifies this`dataRetention
      ensures dataRetention == v
    {
      dataRetention := v;
    }

    /** `handleSave` shows the "saved" notice. */
    method HandleSave()
      modifies this`saved
      ensures saved
    {
      saved := true;
    }
  }
}
