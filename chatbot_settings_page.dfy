/**
 * The chatbot settings page of
 * management-frontend/src/pages/ChatbotSettings.jsx: the infinite timer
 * wheels (a long strip of `CYCLES` copies of the values `0..max`, kept
 * away from its ends by recentring, moved one row per 60 units of wheel
 * delta) and the merge of the loaded settings into the page's state.
 * Scroll positions in pixels, the snap timers and the rendering are not
 * modelled.
 */
module ChatbotSettingsPage {
  import opened Wrappers
  import opened Text
  import opened ChatbotSettingsModel
  import SettingsController

  const Cycles := 101
  const WheelThreshold := 60

  // The index arithmetic

  /** JavaScript's `a % b` for a positive `b`: the remainder takes the
      sign of `a`. */
  function JsRem(a: int, b: int): (r: int)
    requires b > 0
    ensures -b < r < b
  {
    if a >= 0 then a % b else -((-a) % b)
  }

  /** `idxToValue(i, base)`: the value row `i` of the strip shows. */
  function IdxToValue(i: int, base: int): (r: int)
    requires base > 0
  {
    JsRem(JsRem(i, base) + base, base)
  }

  /** The value of a row is the row's index modulo `base`, for negative
      indices too: always in `[0, base)` and congruent to the index. */
  lemma IdxToValueIsMod(i: int, base: int)
    requires base > 0
    ensures IdxToValue(i, base) == i % base
    ensures 0 <= IdxToValue(i, base) < base
  {
    if i >= 0 {
      var t := i % base;
      ModUnique(t + base, base, 1, t);
    } else {
      var q, m := (-i) / base, (-i) % base;
      assert -i == q * base + m;
      if m == 0 {
        ModUnique(base, base, 1, 0);
        ModUnique(i, base, -q, 0);
      } else {
        ModUnique(base - m, base, 0, base - m);
        ModUnique(i, base, -q - 1, base - m);
      }
    }
  }

  /** `COUNT`: the number of rows of the strip. */
  function ItemCount(base: int): int {
    base * Cycles
  }

  /** `MID_BLOCK`: the first row of the middle copy. */
  function MidBlock(base: int): int {
    (Cycles / 2) * base
  }

  /** The row selected for a stored value: `MID_BLOCK + value`. */
  function InitialIndex(value: int, base: int): int {
    MidBlock(base) + value
  }

  /** The row first selected shows the stored value. */
  lemma InitialShowsValue(v: int, base: int)
    requires 0 <= v < base
    ensures IdxToValue(InitialIndex(v, base), base) == v
  {
    IdxToValueIsMod(InitialIndex(v, base), base);
    ModUnique(InitialIndex(v, base), base, Cycles / 2, v);
  }

  /** `recenterIfNearEdges(idx)`: a row in the first or the last copy is
      moved to the same value in the middle copy; `mounted` is
      `ref.current` being set. */
  function Recenter(idx: int, base: int, mounted: bool): int
    requires base > 0
  {
    if !mounted then idx
    else if idx < base || idx > ItemCount(base) - base then MidBlock(base) + IdxToValue(idx, base)
    else idx
  }

  /** Recentring never changes the value shown, leaves a row away from
      the ends where it is, and otherwise lands away from the ends. */
  lemma RecenterKeepsValue(idx: int, base: int, mounted: bool)
    requires base > 0
    ensures IdxToValue(Recenter(idx, base, mounted), base) == IdxToValue(idx, base)
    ensures base <= idx <= ItemCount(base) - base ==> Recenter(idx, base, mounted) == idx
    ensures mounted ==> base <= Recenter(idx, base, mounted) <= ItemCount(base) - base
  {
    assert ItemCount(base) == 101 * base && MidBlock(base) == 50 * base;
    if mounted && (idx < base || idx > ItemCount(base) - base) {
      var v := IdxToValue(idx, base);
      IdxToValueIsMod(idx, base);
      InitialShowsValue(v, base);
    }
  }

  /** Moving one row up or down moves the value shown by one around the
      dial: `max` is followed by 0 and 0 is preceded by `max`. */
  lemma NudgeStepsAroundDial(i: int, d: int, base: int)
    requires base > 0 && (d == 1 || d == -1)
    ensures IdxToValue(i + d, base) == IdxToValue(IdxToValue(i, base) + d, base)
    ensures d == 1 && IdxToValue(i, base) == base - 1 ==> IdxToValue(i + d, base) == 0
    ensures d == -1 && IdxToValue(i, base) == 0 ==> IdxToValue(i + d, base) == base - 1
  {
    var v := IdxToValue(i, base);
    IdxToValueIsMod(i, base);
    IdxToValueIsMod(i + d, base);
    IdxToValueIsMod(v + d, base);
    ModShift(i, d, base);
    if d == 1 && v == base - 1 {
      ModUnique(base, base, 1, 0);
    }
    if d == -1 && v == 0 {
      ModUnique(-1, base, -1, base - 1);
    }
  }

  /** Adding to a remainder is adding to the number it came from. */
  lemma ModShift(a: int, d: int, b: int)
    requires b > 0
    ensures (a % b + d) % b == (a + d) % b
  {
    var t := a % b + d;
    var q, q' := a / b, t / b;
    assert a == q * b + a % b;
    assert t == q' * b + t % b;
    assert a + d == (q + q') * b + t % b;
    ModUnique(a + d, b, q + q', t % b);
  }

  // The wheel's events

  /** The number of one-row moves for an accumulated wheel delta: one per
      full `WHEEL_THRESHOLD` units, in the delta's direction. */
  function NudgeCount(total: int): nat {
    if total >= WheelThreshold then total / WheelThreshold
    else if total <= -WheelThreshold then (-total) / WheelThreshold
    else 0
  }

  function Direction(total: int): int {
    if total >= 0 then 1 else -1
  }

  /** The values `onChange` receives from `n` moves that all start from
      the row selected when the page last rendered. */
  function StaleReports(from: int, n: nat, dir: int, base: int): (r: seq<int>)
    requires base > 0
    ensures |r| == n
  {
    seq(n, k => IdxToValue(from + dir, base))
  }

  /** The values `onChange` receives from `n` moves that each start where
      the previous one ended. */
  function FreshReports(from: int, n: nat, dir: int, base: int): (r: seq<int>)
    requires base > 0
    ensures |r| == n
  {
    seq(n, k => IdxToValue(from + (k + 1) * dir, base))
  }

  /** One timer wheel: the selected row as last rendered, the wheel delta
      not yet turned into moves (`wheelAccum.current`), and the values
      handed to `onChange`, in order. */
  class Wheel {
    const base: int
    var currentIndex: int
    var accum: int
    var reported: seq<int>

    /** `useInfiniteWheel(value, max, onChange)` before any event. */
    constructor (value: int, max: int)
      requires max >= 0
      ensures base == max + 1 && currentIndex == InitialIndex(value, base)
      ensures accum == 0 && reported == []
    {
      base := max + 1;
      currentIndex := InitialIndex(value, max + 1);
      accum := 0;
      reported := [];
    }

    /** `nudge(direction)` as the handler of the current render runs it:
        the row it moves from is the one that render saw. */
    method Nudge(from: int, direction: int)
      requires base > 0
      modifies this`currentIndex, this`reported
      ensures currentIndex == from + direction
      ensures reported == old(reported) + [IdxToValue(from + direction, base)]
    {
      currentIndex := from + direction;
      reported := reported + [IdxToValue(from + direction, base)];
    }

    /** `onWheel(e)` as written: every move of one event starts from the
        row of the last render, so however many full thresholds the delta
        holds, the wheel moves one row and reports the same value each
        time. The leftover delta is kept, below the threshold either way. */
    method OnWheel(deltaY: int)
      requires base > 0
      modifies this
      ensures accum == JsRem(old(accum) + deltaY, WheelThreshold)
      ensures -WheelThreshold < accum < WheelThreshold
      ensures reported == old(reported) + StaleReports(old(currentIndex), NudgeCount(old(accum) + deltaY),
                                                       Direction(old(accum) + deltaY), base)
      ensures currentIndex == if NudgeCount(old(accum) + deltaY) == 0 then old(currentIndex)
                              else old(currentIndex) + Direction(old(accum) + deltaY)
    {
      var rendered := currentIndex;
      ghost var total := accum + deltaY;
      ghost var before := reported;
      accum := accum + deltaY;
      var j: nat := 0;
      while accum >= WheelThreshold
        invariant accum == total - j * WheelThreshold
        invariant j > 0 ==> accum >= 0
        invariant reported == before + StaleReports(rendered, j, 1, base)
        invariant currentIndex == if j == 0 then rendered else rendered + 1
      {
        Nudge(rendered, 1);
        assert StaleReports(rendered, j + 1, 1, base) == StaleReports(rendered, j, 1, base) + [IdxToValue(rendered + 1, base)];
        accum := accum - WheelThreshold;
        j := j + 1;
      }
      ghost var up := j;
      while accum <= -WheelThreshold
        invariant up > 0 ==> j == up && accum == total - up * WheelThreshold && 0 <= accum < WheelThreshold
        invariant up > 0 ==> reported == before + StaleReports(rendered, up, 1, base) && currentIndex == rendered + 1
        invariant up == 0 ==> accum == total + j * WheelThreshold && accum < WheelThreshold
        invariant up == 0 && j > 0 ==> accum <= 0
        invariant up == 0 ==> reported == before + StaleReports(rendered, j, -1, base)
        invariant up == 0 ==> currentIndex == if j == 0 then rendered else rendered - 1
      {
        Nudge(rendered, -1);
        assert StaleReports(rendered, j + 1, -1, base) == StaleReports(rendered, j, -1, base) + [IdxToValue(rendered - 1, base)];
        accum := accum + WheelThreshold;
        j := j + 1;
      }
      WheelArithmetic(total, j, up, accum);
      assert StaleReports(rendered, 0, 1, base) == StaleReports(rendered, 0, -1, base);
    }

    /** `onWheel(e)` with each move starting where the previous one
        ended (a functional state update): the wheel moves one row per
        full threshold. */
    method OnWheelFixed(deltaY: int)
      requires base > 0
      modifies this
      ensures accum == JsRem(old(accum) + deltaY, WheelThreshold)
      ensures -WheelThreshold < accum < WheelThreshold
      ensures reported == old(reported) + FreshReports(old(currentIndex), NudgeCount(old(accum) + deltaY),
                                                       Direction(old(accum) + deltaY), base)
      ensures currentIndex == if Direction(old(accum) + deltaY) == 1 then old(currentIndex) + NudgeCount(old(accum) + deltaY)
                              else old(currentIndex) - NudgeCount(old(accum) + deltaY)
    {
      ghost var start := currentIndex;
      ghost var total := accum + deltaY;
      ghost var before := reported;
      accum := accum + deltaY;
      var j: nat := 0;
      while accum >= WheelThreshold
        invariant accum == total - j * WheelThreshold
        invariant j > 0 ==> accum >= 0
        invariant reported == before + FreshReports(start, j, 1, base)
        invariant currentIndex == start + j
      {
        Nudge(currentIndex, 1);
        assert FreshReports(start, j + 1, 1, base) == FreshReports(start, j, 1, base) + [IdxToValue(start + (j + 1) * 1, base)];
        accum := accum - WheelThreshold;
        j := j + 1;
      }
      ghost var up := j;
      while accum <= -WheelThreshold
        invariant up > 0 ==> j == up && accum == total - up * WheelThreshold && 0 <= accum < WheelThreshold
        invariant up > 0 ==> reported == before + FreshReports(start, up, 1, base) && currentIndex == start + up
        invariant up == 0 ==> accum == total + j * WheelThreshold && accum < WheelThreshold
        invariant up == 0 && j > 0 ==> accum <= 0
        invariant up == 0 ==> reported == before + FreshReports(start, j, -1, base)
        invariant up == 0 ==> currentIndex == start - j
      {
        Nudge(currentIndex, -1);
        assert FreshReports(start, j + 1, -1, base) == FreshReports(start, j, -1, base) + [IdxToValue(start + (j + 1) * -1, base)];
        accum := accum + WheelThreshold;
        j := j + 1;
      }
      WheelArithmetic(total, j, up, accum);
      assert FreshReports(start, 0, 1, base) == FreshReports(start, 0, -1, base);
    }
  }

  /** What the two loops of `onWheel` leave: `j` moves, `up` of them in
      the first loop, and the leftover. */
  lemma WheelArithmetic(total: int, j: nat, up: nat, accum: int)
    requires up == 0 ==> accum == total + j * WheelThreshold && -WheelThreshold < accum < WheelThreshold
    requires up > 0 ==> j == up && 0 <= accum < WheelThreshold && accum == total - j * WheelThreshold
    requires up == 0 && j > 0 ==> accum <= 0
    ensures j == NudgeCount(total)
    ensures accum == JsRem(total, WheelThreshold)
    ensures j > 0 ==> (up > 0 <==> Direction(total) == 1)
    ensures up > 0 ==> total >= 0
  {
    if up > 0 {
      ModUnique(total, WheelThreshold, j, accum);
    } else if j > 0 {
      ModUnique(-total, WheelThreshold, j, -accum);
    } else if total >= 0 {
      ModUnique(total, WheelThreshold, 0, total);
    } else {
      ModUnique(-total, WheelThreshold, 0, -total);
    }
  }

  /** Moves that all start from the rendered row report the first move's
      value again and again: with two moves or more on a dial of two
      values or more, the reports differ from one-step-at-a-time moves. */
  lemma StaleWheelRepeats(from: int, n: nat, dir: int, base: int)
    requires base >= 2 && n >= 2 && (dir == 1 || dir == -1)
    ensures StaleReports(from, n, dir, base)[1] == StaleReports(from, n, dir, base)[0]
    ensures StaleReports(from, n, dir, base) != FreshReports(from, n, dir, base)
  {
    var a := from + dir;
    NudgeStepsAroundDial(a, dir, base);
    var v := IdxToValue(a, base);
    IdxToValueIsMod(a, base);
    IdxToValueIsMod(v + dir, base);
    if dir == 1 {
      if v + 1 < base {
        ModUnique(v + 1, base, 0, v + 1);
      } else {
        ModUnique(v + 1, base, 1, 0);
      }
    } else {
      if v >= 1 {
        ModUnique(v - 1, base, 0, v - 1);
      } else {
        ModUnique(v - 1, base, -1, base - 1);
      }
    }
    assert FreshReports(from, n, dir, base)[1] == IdxToValue(from + 2 * dir, base);
    assert from + 2 * dir == a + dir;
  }

  /** One notch of 120 units on the minutes wheel: two moves are due, and
      the second report repeats the first instead of moving on. */
  lemma MinutesNotchOf120(from: int)
    ensures NudgeCount(0 + 120) == 2 && Direction(120) == 1
    ensures StaleReports(from, 2, 1, 60) != FreshReports(from, 2, 1, 60)
  {
    StaleWheelRepeats(from, 2, 1, 60);
  }

  /** With one move per threshold, consecutive reports step by one around
      the dial, and the last one is the value of the row the wheel ends
      on. */
  lemma FreshReportsStep(from: int, n: nat, dir: int, base: int)
    requires base > 0 && (dir == 1 || dir == -1)
    ensures forall k :: 0 <= k < n - 1 ==>
              FreshReports(from, n, dir, base)[k + 1] == IdxToValue(FreshReports(from, n, dir, base)[k] + dir, base)
    ensures n > 0 ==> FreshReports(from, n, dir, base)[n - 1] == IdxToValue(from + n * dir, base)
  {
    var r := FreshReports(from, n, dir, base);
    forall k | 0 <= k < n - 1
      ensures r[k + 1] == IdxToValue(r[k] + dir, base)
    {
      NudgeStepsAroundDial(from + (k + 1) * dir, dir, base);
      assert from + (k + 2) * dir == from + (k + 1) * dir + dir;
    }
  }

  // Loading the settings

  /** The page's state before the settings arrive. */
  const PageInitial := Settings(
    "#33475B", "#EEEEEE", "How can I help you?", "Ask me anything!",
    IntroForm("Your name", "Your name", "Your Phone", "+91 0000000000", "Your Email", "example@gmail.com"),
    "\U{1F44B} Want to chat about Hubly? I'm a chatbot here to help you find your way.",
    Timer(0, 10, 0))

  /** The state after loading: every top-level key the reply has
      overrides, the custom messages and the introduction form are merged
      key by key, and each part of the timer the reply lacks keeps its
      previous value. */
  function Loaded(prev: Settings, s: SettingsController.SettingsPatch): Settings {
    var m := s.customMessages.GetOr(SettingsController.MessagesPatch(None, None));
    Settings(
      s.headerColor.GetOr(prev.headerColor),
      s.backgroundColor.GetOr(prev.backgroundColor),
      m.message1.GetOr(prev.message1),
      m.message2.GetOr(prev.message2),
      if s.introductionForm.Some? then SettingsController.MergedIntro(prev.introductionForm, s.introductionForm.value)
      else prev.introductionForm,
      s.welcomeMessage.GetOr(prev.welcomeMessage),
      if s.missedChatTimer.Some? then SettingsController.MergedTimer(prev.missedChatTimer, s.missedChatTimer.value)
      else prev.missedChatTimer)
  }

  /** A stored record as the server sends it: every key present. */
  function Full(s: Settings): SettingsController.SettingsPatch {
    SettingsController.SettingsPatch(
      Some(s.headerColor), Some(s.backgroundColor),
      Some(SettingsController.MessagesPatch(Some(s.message1), Some(s.message2))),
      Some(SettingsController.IntroPatch(
        Some(s.introductionForm.nameLabel), Some(s.introductionForm.namePlaceholder),
        Some(s.introductionForm.phoneLabel), Some(s.introductionForm.phonePlaceholder),
        Some(s.introductionForm.emailLabel), Some(s.introductionForm.emailPlaceholder))),
      Some(s.welcomeMessage),
      Some(SettingsController.TimerPatch(Some(s.missedChatTimer.hours), Some(s.missedChatTimer.minutes),
                                         Some(s.missedChatTimer.seconds))))
  }

  /** The page shows the stored record exactly, whatever it showed before,
      and an empty reply leaves the page as it was. */
  lemma LoadShowsStored(prev: Settings, s: Settings)
    ensures Loaded(prev, Full(s)) == s
    ensures Loaded(prev, SettingsController.NoChange) == prev
  {
  }

  /** The page merges a partial record the way the server applies an
      update, except that the server trims the colours: on colours without
      surrounding spaces the two agree. */
  lemma LoadAgreesWithServerPatch(prev: Settings, p: SettingsController.SettingsPatch)
    requires p.headerColor.Some? ==> Trim(p.headerColor.value) == p.headerColor.value
    requires p.backgroundColor.Some? ==> Trim(p.backgroundColor.value) == p.backgroundColor.value
    ensures Loaded(prev, p) == SettingsController.Patched(prev, p)
  {
    SettingsController.PatchedFields(prev, p);
  }

  /** The wheels start on the loaded timer: each wheel's selected row
      shows the stored part when it is within the wheel's range. */
  lemma WheelsShowLoadedTimer(prev: Settings, s: Settings)
    requires TimerInBounds(s.missedChatTimer)
    ensures var t := Loaded(prev, Full(s)).missedChatTimer;
            && IdxToValue(InitialIndex(t.hours, 24), 24) == s.missedChatTimer.hours
            && IdxToValue(InitialIndex(t.minutes, 60), 60) == s.missedChatTimer.minutes
            && IdxToValue(InitialIndex(t.seconds, 60), 60) == s.missedChatTimer.seconds
  {
    LoadShowsStored(prev, s);
    InitialShowsValue(s.missedChatTimer.hours, 24);
    InitialShowsValue(s.missedChatTimer.minutes, 60);
    InitialShowsValue(s.missedChatTimer.seconds, 60);
  }
}
