/**
 * The chatbot settings endpoints of
 * backend/src/controllers/settingsController.js over the store's single
 * settings record: reading it (creating the defaults on first use), a
 * partial update field by field, and a reset to the defaults. A record
 * the schema's validators refuse is never stored.
 */
module SettingsController {
  import opened Wrappers
  import opened Text
  import opened Domain
  import opened Store
  import opened ChatbotSettingsModel
  import ErrorHandler

  /** The parts of an update request; `None` stands for a key the body
      does not have. */
  datatype MessagesPatch = MessagesPatch(message1: Option<string>, message2: Option<string>)

  datatype IntroPatch = IntroPatch(
    nameLabel: Option<string>,
    namePlaceholder: Option<string>,
    phoneLabel: Option<string>,
    phonePlaceholder: Option<string>,
    emailLabel: Option<string>,
    emailPlaceholder: Option<string>)

  datatype TimerPatch = TimerPatch(hours: Option<int>, minutes: Option<int>, seconds: Option<int>)

  datatype SettingsPatch = SettingsPatch(
    headerColor: Option<string>,
    backgroundColor: Option<string>,
    customMessages: Option<MessagesPatch>,
    introductionForm: Option<IntroPatch>,
    welcomeMessage: Option<string>,
    missedChatTimer: Option<TimerPatch>)

  const NoChange := SettingsPatch(None, None, None, None, None, None)

  /** `{ ...form, ...patch }`: the keys the patch has replace the form's,
      the other keys stay. */
  function MergedIntro(f: IntroForm, p: IntroPatch): IntroForm {
    IntroForm(p.nameLabel.GetOr(f.nameLabel), p.namePlaceholder.GetOr(f.namePlaceholder),
              p.phoneLabel.GetOr(f.phoneLabel), p.phonePlaceholder.GetOr(f.phonePlaceholder),
              p.emailLabel.GetOr(f.emailLabel), p.emailPlaceholder.GetOr(f.emailPlaceholder))
  }

  // The assignments of the update, one request key at a time.

  /** `if (headerColor !== undefined) settings.headerColor = headerColor`,
      through the schema's `trim`. */
  function WithHeaderColor(s: Settings, v: Option<string>): Settings {
    if v.Some? then s.(headerColor := Trim(v.value)) else s
  }

  function WithBackgroundColor(s: Settings, v: Option<string>): Settings {
    if v.Some? then s.(backgroundColor := Trim(v.value)) else s
  }

  /** Each custom message set only when the request defines it. */
  function WithMessages(s: Settings, v: Option<MessagesPatch>): Settings {
    if v.None? then s
    else s.(message1 := v.value.message1.GetOr(s.message1), message2 := v.value.message2.GetOr(s.message2))
  }

  function WithIntro(s: Settings, v: Option<IntroPatch>): Settings {
    if v.Some? then s.(introductionForm := MergedIntro(s.introductionForm, v.value)) else s
  }

  function WithWelcome(s: Settings, v: Option<string>): Settings {
    if v.Some? then s.(welcomeMessage := v.value) else s
  }

  /** Each part of the timer set only when the request defines it. */
  function WithTimer(s: Settings, v: Option<TimerPatch>): Settings {
    if v.None? then s else s.(missedChatTimer := MergedTimer(s.missedChatTimer, v.value))
  }

  function MergedTimer(t: Timer, p: TimerPatch): Timer {
    Timer(p.hours.GetOr(t.hours), p.minutes.GetOr(t.minutes), p.seconds.GetOr(t.seconds))
  }

  /** The record after the update's assignments, in the order the handler
      makes them. */
  function Patched(s: Settings, p: SettingsPatch): Settings {
    WithTimer(WithWelcome(WithIntro(WithMessages(WithBackgroundColor(WithHeaderColor(s, p.headerColor),
      p.backgroundColor), p.customMessages), p.introductionForm), p.welcomeMessage), p.missedChatTimer)
  }

  /** What the update does to each field: a field the body defines takes
      its value (the colours trimmed, an empty string included), every
      other field keeps its value; the introduction form and the timer
      are merged key by key. */
  lemma PatchedFields(s: Settings, p: SettingsPatch)
    ensures var r := Patched(s, p);
            var m := p.customMessages.GetOr(MessagesPatch(None, None));
            && r.headerColor == (if p.headerColor.Some? then Trim(p.headerColor.value) else s.headerColor)
            && r.backgroundColor == (if p.backgroundColor.Some? then Trim(p.backgroundColor.value) else s.backgroundColor)
            && r.message1 == m.message1.GetOr(s.message1)
            && r.message2 == m.message2.GetOr(s.message2)
            && r.introductionForm == (if p.introductionForm.Some? then MergedIntro(s.introductionForm, p.introductionForm.value)
                                      else s.introductionForm)
            && r.welcomeMessage == p.welcomeMessage.GetOr(s.welcomeMessage)
            && r.missedChatTimer == (if p.missedChatTimer.Some? then MergedTimer(s.missedChatTimer, p.missedChatTimer.value)
                                     else s.missedChatTimer)
  {
  }

  /** The `else` branch of `updateChatbotSettings`, assignment by
      assignment on the loaded record. */
  method ApplyPatch(s: Settings, p: SettingsPatch) returns (r: Settings)
    ensures r == Patched(s, p)
  {
    r := s;
    if p.headerColor.Some? {
      r := r.(headerColor := Trim(p.headerColor.value));
    }
    if p.backgroundColor.Some? {
      r := r.(backgroundColor := Trim(p.backgroundColor.value));
    }
    r := ApplyMessages(r, p.customMessages);
    if p.introductionForm.Some? {
      r := r.(introductionForm := MergedIntro(r.introductionForm, p.introductionForm.value));
    }
    if p.welcomeMessage.Some? {
      r := r.(welcomeMessage := p.welcomeMessage.value);
    }
    r := ApplyTimer(r, p.missedChatTimer);
  }

  /** The custom messages' two assignments. */
  method ApplyMessages(s: Settings, v: Option<MessagesPatch>) returns (r: Settings)
    ensures r == WithMessages(s, v)
  {
    r := s;
    if v.Some? {
      if v.value.message1.Some? {
        r := r.(message1 := v.value.message1.value);
      }
      if v.value.message2.Some? {
        r := r.(message2 := v.value.message2.value);
      }
    }
  }

  /** The timer's three assignments. */
  method ApplyTimer(s: Settings, v: Option<TimerPatch>) returns (r: Settings)
    ensures r == WithTimer(s, v)
  {
    r := s;
    if v.Some? {
      var t := v.value;
      if t.hours.Some? {
        r := r.(missedChatTimer := r.missedChatTimer.(hours := t.hours.value));
      }
      if t.minutes.Some? {
        r := r.(missedChatTimer := r.missedChatTimer.(minutes := t.minutes.value));
      }
      if t.seconds.Some? {
        r := r.(missedChatTimer := r.missedChatTimer.(seconds := t.seconds.value));
      }
    }
  }

  /** `ChatbotSettings.create(body)`: each path the body gives, every
      other path from the schema's defaults. */
  function CreatedFrom(p: SettingsPatch): Settings {
    var d := Defaults();
    var m := p.customMessages.GetOr(MessagesPatch(None, None));
    var t := p.missedChatTimer.GetOr(TimerPatch(None, None, None));
    var f := p.introductionForm.GetOr(IntroPatch(None, None, None, None, None, None));
    Settings(
      if p.headerColor.Some? then Trim(p.headerColor.value) else DefaultHeaderColor,
      if p.backgroundColor.Some? then Trim(p.backgroundColor.value) else DefaultBackgroundColor,
      m.message1.GetOr(DefaultMessage1),
      m.message2.GetOr(DefaultMessage2),
      IntroForm(f.nameLabel.GetOr(DefaultIntroForm.nameLabel), f.namePlaceholder.GetOr(DefaultIntroForm.namePlaceholder),
                f.phoneLabel.GetOr(DefaultIntroForm.phoneLabel), f.phonePlaceholder.GetOr(DefaultIntroForm.phonePlaceholder),
                f.emailLabel.GetOr(DefaultIntroForm.emailLabel), f.emailPlaceholder.GetOr(DefaultIntroForm.emailPlaceholder)),
      p.welcomeMessage.GetOr(DefaultWelcomeMessage),
      Timer(t.hours.GetOr(0), t.minutes.GetOr(10), t.seconds.GetOr(0)))
  }

  /** Creating from a body and updating the default record with it give
      the same record, and an empty body creates the defaults. */
  lemma CreateIsPatchOfDefaults(p: SettingsPatch)
    ensures CreatedFrom(p) == Patched(Defaults(), p)
    ensures CreatedFrom(NoChange) == Defaults()
  {
    PatchedFields(Defaults(), p);
  }

  /** An update leaves every field the body does not name as it was: the
      other custom message, the introduction form's other keys, and the
      other parts of the timer. */
  lemma PatchKeepsUnnamed(s: Settings, p: SettingsPatch)
    ensures p.headerColor.None? ==> Patched(s, p).headerColor == s.headerColor
    ensures p.backgroundColor.None? ==> Patched(s, p).backgroundColor == s.backgroundColor
    ensures p.welcomeMessage.None? ==> Patched(s, p).welcomeMessage == s.welcomeMessage
    ensures (p.customMessages.None? || p.customMessages.value.message1.None?) ==>
              Patched(s, p).message1 == s.message1
    ensures (p.customMessages.None? || p.customMessages.value.message2.None?) ==>
              Patched(s, p).message2 == s.message2
    ensures (p.introductionForm.None? || p.introductionForm.value.nameLabel.None?) ==>
              Patched(s, p).introductionForm.nameLabel == s.introductionForm.nameLabel
    ensures (p.missedChatTimer.None? || p.missedChatTimer.value.hours.None?) ==>
              Patched(s, p).missedChatTimer.hours == s.missedChatTimer.hours
    ensures (p.missedChatTimer.None? || p.missedChatTimer.value.minutes.None?) ==>
              Patched(s, p).missedChatTimer.minutes == s.missedChatTimer.minutes
    ensures (p.missedChatTimer.None? || p.missedChatTimer.value.seconds.None?) ==>
              Patched(s, p).missedChatTimer.seconds == s.missedChatTimer.seconds
    ensures Patched(s, NoChange) == s
  {
    PatchedFields(s, p);
  }

  /** Sending the same update twice stores the same record as sending it
      once. */
  lemma PatchIdempotent(s: Settings, p: SettingsPatch)
    ensures Patched(Patched(s, p), p) == Patched(s, p)
  {
    PatchedFields(s, p);
    PatchedFields(Patched(s, p), p);
    if p.headerColor.Some? {
      TrimIdempotent(p.headerColor.value);
    }
    if p.backgroundColor.Some? {
      TrimIdempotent(p.backgroundColor.value);
    }
  }

  /** Two requests in a row: the second one's keys win, the first one's
      other keys stay, as if one request carried both. */
  function Then(p: SettingsPatch, q: SettingsPatch): SettingsPatch {
    SettingsPatch(
      if q.headerColor.Some? then q.headerColor else p.headerColor,
      if q.backgroundColor.Some? then q.backgroundColor else p.backgroundColor,
      ThenMessages(p.customMessages, q.customMessages),
      ThenIntro(p.introductionForm, q.introductionForm),
      if q.welcomeMessage.Some? then q.welcomeMessage else p.welcomeMessage,
      ThenTimer(p.missedChatTimer, q.missedChatTimer))
  }

  function Or<T>(a: Option<T>, b: Option<T>): Option<T> {
    if a.Some? then a else b
  }

  function ThenMessages(a: Option<MessagesPatch>, b: Option<MessagesPatch>): Option<MessagesPatch> {
    if a.None? then b
    else if b.None? then a
    else Some(MessagesPatch(Or(b.value.message1, a.value.message1), Or(b.value.message2, a.value.message2)))
  }

  function ThenIntro(a: Option<IntroPatch>, b: Option<IntroPatch>): Option<IntroPatch> {
    if a.None? then b
    else if b.None? then a
    else
      var x := a.value;
      var y := b.value;
      Some(IntroPatch(Or(y.nameLabel, x.nameLabel), Or(y.namePlaceholder, x.namePlaceholder),
                      Or(y.phoneLabel, x.phoneLabel), Or(y.phonePlaceholder, x.phonePlaceholder),
                      Or(y.emailLabel, x.emailLabel), Or(y.emailPlaceholder, x.emailPlaceholder)))
  }

  function ThenTimer(a: Option<TimerPatch>, b: Option<TimerPatch>): Option<TimerPatch> {
    if a.None? then b
    else if b.None? then a
    else Some(TimerPatch(Or(b.value.hours, a.value.hours), Or(b.value.minutes, a.value.minutes),
                         Or(b.value.seconds, a.value.seconds)))
  }

  lemma PatchesCompose(s: Settings, p: SettingsPatch, q: SettingsPatch)
    ensures Patched(Patched(s, p), q) == Patched(s, Then(p, q))
  {
    var once := Patched(s, p);
    var twice := Patched(once, q);
    var both := Patched(s, Then(p, q));
    assert twice.headerColor == both.headerColor && twice.backgroundColor == both.backgroundColor
        && twice.message1 == both.message1 && twice.message2 == both.message2
        && twice.welcomeMessage == both.welcomeMessage by {
      PatchedFields(s, p);
      PatchedFields(once, q);
      PatchedFields(s, Then(p, q));
    }
    assert twice.introductionForm == both.introductionForm by {
      PatchedFields(s, p);
      PatchedFields(once, q);
      PatchedFields(s, Then(p, q));
      IntroMergesCompose(s.introductionForm, p.introductionForm, q.introductionForm);
    }
    assert twice.missedChatTimer == both.missedChatTimer by {
      PatchedFields(s, p);
      PatchedFields(once, q);
      PatchedFields(s, Then(p, q));
      TimerMergesCompose(s.missedChatTimer, p.missedChatTimer, q.missedChatTimer);
    }
  }

  /** Merging two timer patches in turn is merging their combination. */
  lemma TimerMergesCompose(t: Timer, a: Option<TimerPatch>, b: Option<TimerPatch>)
    ensures var once := if a.Some? then MergedTimer(t, a.value) else t;
            var both := ThenTimer(a, b);
            (if b.Some? then MergedTimer(once, b.value) else once)
              == (if both.Some? then MergedTimer(t, both.value) else t)
  {
  }

  /** Merging two introduction-form patches in turn is merging their
      combination. */
  lemma IntroMergesCompose(f: IntroForm, a: Option<IntroPatch>, b: Option<IntroPatch>)
    ensures var once := if a.Some? then MergedIntro(f, a.value) else f;
            var both := ThenIntro(a, b);
            (if b.Some? then MergedIntro(once, b.value) else once)
              == (if both.Some? then MergedIntro(f, both.value) else f)
  {
  }

  // GET /settings/chatbot (public)

  /** `getChatbotSettings`: the stored record, or, when there is none, a
      new record with the defaults, which is then stored. */
  method GetChatbotSettings(db: Db) returns (s: Settings)
    requires db.Valid()
    modifies db
    ensures db.Valid()
    ensures db.tickets == old(db.tickets) && db.messages == old(db.messages)
    ensures db.users == old(db.users) && db.nextId == old(db.nextId)
    ensures old(db.settings) != [] ==> s == old(db.settings)[0] && db.settings == old(db.settings)
    ensures old(db.settings) == [] ==> s == Defaults() && db.settings == [Defaults()]
  {
    if db.settings == [] {
      DefaultsValid();
      db.settings := [Defaults()];
    }
    s := db.settings[0];
  }

  // PUT /settings/chatbot (admin only)

  /** The validation error a save of `s` throws, as the error handler
      answers it. */
  function Refused(s: Settings): Response<Settings> {
    var reply := ErrorHandler.Handle(ErrorHandler.ServerError(None, "ValidationError", None, ValidationMessages(s), None,
                                                             "ChatbotSettings validation failed"));
    if reply.Some? then Fail(reply.value.status, reply.value.message) else Fail(500, "Server Error")
  }

  /** A refused save answers 400. */
  lemma RefusedIsBadRequest(s: Settings)
    requires !Valid(s)
    ensures Refused(s).Fail? && Refused(s).code == 400
  {
    ErrorHandler.ValidationReply(ErrorHandler.ServerError(None, "ValidationError", None, ValidationMessages(s), None,
                                                         "ChatbotSettings validation failed"));
  }

  /** `updateChatbotSettings`: with no record, one is created from the
      body; with a record, the body's fields are written into it. Either
      way a record the validators refuse is not stored and the reply is
      the validation error. */
  method UpdateChatbotSettings(db: Db, caller: Caller, p: SettingsPatch) returns (r: Response<Settings>)
    requires db.Valid()
    requires caller.role == Admin
    modifies db
    ensures db.Valid()
    ensures db.tickets == old(db.tickets) && db.messages == old(db.messages)
    ensures db.users == old(db.users) && db.nextId == old(db.nextId)
    ensures var s := if old(db.settings) == [] then CreatedFrom(p) else Patched(old(db.settings)[0], p);
            if Valid(s) then r == Ok(s) && db.settings == [s]
            else r == Refused(s) && db.settings == old(db.settings)
  {
    var s;
    if db.settings == [] {
      s := CreatedFrom(p);
    } else {
      s := ApplyPatch(db.settings[0], p);
    }
    if !Valid(s) {
      return Refused(s);
    }
    db.settings := [s];
    r := Ok(s);
  }

  // POST /settings/chatbot/reset (admin only)

  /** `resetChatbotSettings`: every record is deleted, then one record
      with the defaults is created. */
  method ResetChatbotSettings(db: Db, caller: Caller) returns (s: Settings)
    requires db.Valid()
    requires caller.role == Admin
    modifies db
    ensures db.Valid()
    ensures db.tickets == old(db.tickets) && db.messages == old(db.messages)
    ensures db.users == old(db.users) && db.nextId == old(db.nextId)
    ensures s == Defaults() && db.settings == [Defaults()]
  {
    DefaultsValid();
    db.settings := [];
    db.settings := db.settings + [Defaults()];
    s := db.settings[0];
  }
}
