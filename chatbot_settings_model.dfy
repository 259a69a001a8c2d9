/**
 * The chatbot settings document (backend/src/models/ChatbotSettings.js):
 * its defaults, the bounds and length limits the schema enforces when a
 * document is saved, and the missed-chat time it derives from its timer.
 */
module ChatbotSettingsModel {
  import opened Wrappers
  import opened Text

  datatype Timer = Timer(hours: int, minutes: int, seconds: int)

  datatype IntroForm = IntroForm(
    nameLabel: string,
    namePlaceholder: string,
    phoneLabel: string,
    phonePlaceholder: string,
    emailLabel: string,
    emailPlaceholder: string)

  datatype Settings = Settings(
    headerColor: string,
    backgroundColor: string,
    message1: string,
    message2: string,
    introductionForm: IntroForm,
    welcomeMessage: string,
    missedChatTimer: Timer)

  const DefaultHeaderColor: string := "#334755"
  const DefaultBackgroundColor: string := "#EEEEEE"
  const DefaultMessage1: string := "How can I help you?"
  const DefaultMessage2: string := "Ask me anything!"
  const DefaultWelcomeMessage: string :=
    "\U{1F44B} Want to chat about Hubly? I'm an chatbot here to help you find your way."

  const MaxCustomMessageLength := 200
  const MaxWelcomeMessageLength := 500

  const DefaultIntroForm: IntroForm := IntroForm(
    "Your name", "Your name", "Your Phone", "+1 (000) 000-0000",
    "Your Email", "example@gmail.com")

  /** The document `ChatbotSettings.create({})` stores. */
  function Defaults(): (s: Settings)
    ensures s.headerColor == "#334755" && s.backgroundColor == "#EEEEEE"
    ensures s.message1 == "How can I help you?" && s.message2 == "Ask me anything!"
    ensures s.missedChatTimer == Timer(0, 10, 0)
  {
    Settings(DefaultHeaderColor, DefaultBackgroundColor, DefaultMessage1, DefaultMessage2,
             DefaultIntroForm, DefaultWelcomeMessage, Timer(0, 10, 0))
  }

  /** The `min`/`max` bounds of the timer's three parts. */
  predicate TimerInBounds(t: Timer) {
    0 <= t.hours <= 23 && 0 <= t.minutes <= 59 && 0 <= t.seconds <= 59
  }

  /** What the schema's validators accept when the document is saved. */
  predicate Valid(s: Settings) {
    && |s.message1| <= MaxCustomMessageLength
    && |s.message2| <= MaxCustomMessageLength
    && |s.welcomeMessage| <= MaxWelcomeMessageLength
    && TimerInBounds(s.missedChatTimer)
  }

  /** Mongoose's message for a number above its `max` or below its `min`. */
  function RangeMessage(path: string, value: int, lo: int, hi: int): string
    requires !(lo <= value <= hi)
  {
    if value > hi then
      "Path `" + path + "` (" + IntToString(value) + ") is more than maximum allowed value ("
      + IntToString(hi) + ")."
    else
      "Path `" + path + "` (" + IntToString(value) + ") is less than minimum allowed value ("
      + IntToString(lo) + ")."
  }

  /** The messages of the validation errors a save reports, one per failing
      path, in schema order. */
  function ValidationMessages(s: Settings): (msgs: seq<string>)
    ensures msgs == [] <==> Valid(s)
  {
    var lengths := LengthMessages(s);
    var timer := TimerMessages(s.missedChatTimer);
    assert |lengths + timer| == |lengths| + |timer|;
    lengths + timer
  }

  /** The failing length validators: the two custom messages, then the
      welcome message. */
  function LengthMessages(s: Settings): (msgs: seq<string>)
    ensures msgs == [] <==> |s.message1| <= MaxCustomMessageLength && |s.message2| <= MaxCustomMessageLength
                            && |s.welcomeMessage| <= MaxWelcomeMessageLength
  {
    (if |s.message1| > MaxCustomMessageLength then ["Message cannot exceed 200 characters"] else [])
    + (if |s.message2| > MaxCustomMessageLength then ["Message cannot exceed 200 characters"] else [])
    + (if |s.welcomeMessage| > MaxWelcomeMessageLength then ["Welcome message cannot exceed 500 characters"] else [])
  }

  /** The failing range validators of the timer: hours, minutes, seconds. */
  function TimerMessages(t: Timer): (msgs: seq<string>)
    ensures msgs == [] <==> TimerInBounds(t)
  {
    (if 0 <= t.hours <= 23 then [] else [RangeMessage("missedChatTimer.hours", t.hours, 0, 23)])
    + (if 0 <= t.minutes <= 59 then [] else [RangeMessage("missedChatTimer.minutes", t.minutes, 0, 59)])
    + (if 0 <= t.seconds <= 59 then [] else [RangeMessage("missedChatTimer.seconds", t.seconds, 0, 59)])
  }

  /** `getMissedChatTimeInMinutes()` multiplied by 60, so that the seconds'
      fraction of a minute stays an integer: the timer's length in seconds. */
  function MissedChatTimeInMinutesTimes60(s: Settings): int {
    var t := s.missedChatTimer;
    (t.hours * 60 + t.minutes) * 60 + t.seconds
  }

  /** The stored defaults satisfy the schema and give a ten-minute timer. */
  lemma DefaultsValid()
    ensures Valid(Defaults())
    ensures MissedChatTimeInMinutesTimes60(Defaults()) == 600
  {
    assert |DefaultWelcomeMessage| <= MaxWelcomeMessageLength;
  }

  /** A valid document's timer lies between zero and one second short of a
      day, and is zero only when all three parts are. */
  lemma MissedChatTimeBounds(s: Settings)
    requires Valid(s)
    ensures 0 <= MissedChatTimeInMinutesTimes60(s) <= 23 * 3600 + 59 * 60 + 59
    ensures MissedChatTimeInMinutesTimes60(s) == 0 <==> s.missedChatTimer == Timer(0, 0, 0)
  {
  }

  /** The timer read back from its total: hours, minutes and seconds are
      the mixed-radix digits of the total seconds. */
  lemma MissedChatTimeDigits(s: Settings)
    requires Valid(s)
    ensures var n := MissedChatTimeInMinutesTimes60(s);
            s.missedChatTimer == Timer(n / 3600, (n / 60) % 60, n % 60)
  {
    var t := s.missedChatTimer;
    var n := MissedChatTimeInMinutesTimes60(s);
    assert n == t.hours * 3600 + t.minutes * 60 + t.seconds;
    assert n / 60 == t.hours * 60 + t.minutes;
    assert n / 3600 == t.hours;
  }
}
