/**
 * The user side of the bot (handlers/user_handlers.py): the middleware that
 * records the human sender of a message before the handler that accepted it
 * runs, and the start screen that `/start` and the `back_to_start` button
 * both show.
 */
module UserHandlers {
  import opened Wrappers
  import opened Config
  import opened Database
  import opened Keyboards

  /** `if not welcome: welcome = "Ласкаво просимо до бота! 🎓"`: a missing or empty setting falls back to the default. */
  function ResolveWelcome(stored: Option<string>): (w: string)
    ensures w != ""
    ensures stored.Some? && stored.value != "" ==> w == stored.value
    ensures stored == None || stored == Some("") ==> w == DefaultWelcome
  {
    if stored.Some? && stored.value != "" then stored.value else DefaultWelcome
  }

  /** The start keyboard: Information, then Contacts, one per row. */
  function StartKb(): (kb: Keyboard)
    ensures |kb| == 2 && |kb[0]| == 1 && |kb[1]| == 1
    ensures kb[0][0].callbackData == "info" && kb[1][0].callbackData == "contacts"
  {
    [[Button("ℹ️ Інформація", "info")], [Button("📞 Контакти", "contacts")]]
  }

  datatype StartView = StartView(text: string, kb: Keyboard)

  /** Right after `init`, before any edit, the start screen greets with the default text. */
  lemma WelcomeAfterInit(settings: map<string, Setting>, now: int)
    requires WelcomeKey !in settings
    ensures ResolveWelcome(SettingValue(WithDefaultWelcome(settings, now), WelcomeKey)) == DefaultWelcome
  {
  }

  /** Once an admin has saved a non-empty welcome text, the start screen shows exactly that text. */
  lemma WelcomeAfterEdit(settings: map<string, Setting>, text: string, now: int)
    requires text != ""
    ensures ResolveWelcome(SettingValue(settings[WelcomeKey := Setting(text, now)], WelcomeKey)) == text
  {
  }

  /** The Telegram account behind an update. */
  datatype Sender = Sender(id: int, username: Option<string>, fullName: string, isBot: bool)

  /** An incoming update: its sender, when it has one, and whatever else the handler reads. */
  datatype Event<P> = Event(fromUser: Option<Sender>, payload: P)

  /** The users table after the middleware has seen `event`. */
  function Recorded<P>(users: Users, event: Event<P>, now: int, storageOk: bool): (r: Users)
    ensures event.fromUser.None? || event.fromUser.value.isBot || !storageOk ==> r == users
    ensures event.fromUser.Some? && !event.fromUser.value.isBot && storageOk ==>
              var u := event.fromUser.value;
              u.id in r && r[u.id].fullName == u.fullName && r[u.id].username == u.username && r[u.id].lastSeen == now
  {
    match event.fromUser
    case Some(u) =>
      if !u.isBot && storageOk then Upserted(users, u.id, u.username, u.fullName, now) else users
    case None => users
  }

  class UserRouter {
    const db: Database

    constructor (db: Database)
      ensures this.db == db
    {
      this.db := db;
    }

    /** `start_command` and `back_to_start`: the stored welcome text, or the default, over the start keyboard. */
    method StartScreen() returns (view: StartView)
      ensures view.text == ResolveWelcome(SettingValue(db.settings, WelcomeKey))
      ensures view.kb == StartKb()
    {
      var welcome := db.GetSetting(WelcomeKey);
      view := StartView(ResolveWelcome(welcome), StartKb());
    }
  }

  class SaveUserMiddleware {
    const db: Database

    constructor (db: Database)
      ensures this.db == db
    {
      this.db := db;
    }

    /**
     * `SaveUserMiddleware.__call__`: upserts the sender when there is one and
     * it is not a bot, then hands the event on and returns the handler's answer,
     * recorded or not. The handler is a pure function here, so the contract
     * covers the middleware's own write and not what the handler writes.
     */
    method Call<P, R>(handler: Event<P> -> R, event: Event<P>, now: int, storageOk: bool) returns (r: R)
      requires db.Valid()
      modifies db
      ensures db.Valid()
      ensures r == handler(event)
      ensures db.users == Recorded(old(db.users), event, now, storageOk)
      ensures db.settings == old(db.settings) && db.history == old(db.history)
    {
      if event.fromUser.Some? && !event.fromUser.value.isBot {
        var u := event.fromUser.value;
        var _ := db.AddUser(u.id, u.username, u.fullName, now, storageOk);
      }
      r := handler(event);
    }
  }
}
