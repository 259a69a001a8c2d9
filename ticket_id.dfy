/**
 * The human-readable ticket number that the Ticket model's pre-save hook
 * (backend/src/models/Ticket.js) gives a new ticket: the current year, a
 * dash, and one more than the number of the most recently created ticket,
 * zero-padded to five digits.
 */
module TicketId {
  import opened Wrappers
  import opened Text

  /** A JavaScript number produced by `parseInt(...) + 1`: a natural
      number, or NaN when the previous id had no digits after its dash. */
  datatype SeqNumber = Num(n: nat) | NaN

  function SeqNumberText(x: SeqNumber): string {
    match x
    case Num(n) => NatToString(n)
    case NaN => "NaN"
  }

  /** `${year}-${String(nextNumber).padStart(5, '0')}`. */
  function FormatTicketId(year: nat, x: SeqNumber): string {
    NatToString(year) + "-" + PadStart(SeqNumberText(x), 5, '0')
  }

  /** `parseInt(ticketId.split('-')[1])`: `None` stands for NaN, which is
      also what `parseInt(undefined)` gives when there is no dash. */
  function ParseSuffix(ticketId: string): Option<nat> {
    var parts := Split(ticketId, '-');
    if |parts| < 2 then None else ParseNat(parts[1])
  }

  /** The number the hook computes from the latest-created ticket's id
      (`None` when there is no prior ticket, or it has no id). */
  function NextNumber(lastTicketId: Option<string>): SeqNumber {
    if lastTicketId.None? || lastTicketId.value == [] then Num(1)
    else
      match ParseSuffix(lastTicketId.value)
      case None => NaN
      case Some(k) => Num(k + 1)
  }

  /** The pre-save hook: a ticket that already has an id keeps it; one
      without gets the next id of the current year. */
  function AssignTicketId(current: string, year: nat, lastTicketId: Option<string>): (r: string)
    ensures current != [] ==> r == current
  {
    if current != [] then current else FormatTicketId(year, NextNumber(lastTicketId))
  }

  /** The id of the number `n` reads back as `n`. */
  lemma ParseFormat(year: nat, n: nat)
    ensures ParseSuffix(FormatTicketId(year, Num(n))) == Some(n)
  {
    var y := NatToString(year);
    var p := PadStart(NatToString(n), 5, '0');
    assert '-' !in y;
    assert '-' !in p;
    assert FormatTicketId(year, Num(n)) == y + ['-'] + p;
    SplitPrefix(y, '-', p);
    SplitNoSep(p, '-');
    PadThenParse(n, 5);
  }

  /** After a ticket numbered `n`, whatever its year, the next is `n + 1`:
      the sequence goes on across a change of year. */
  lemma NextAfterFormatted(year: nat, n: nat)
    ensures NextNumber(Some(FormatTicketId(year, Num(n)))) == Num(n + 1)
  {
    ParseFormat(year, n);
  }

  /** The ids given to `|years|` tickets created one after another in an
      empty collection, the `k`-th in year `years[k]`. */
  function GenerateIds(years: seq<nat>): (ids: seq<string>)
    ensures |ids| == |years|
    decreases |years|
  {
    if years == [] then []
    else
      var prev := GenerateIds(years[..|years| - 1]);
      var last := if prev == [] then None else Some(prev[|prev| - 1]);
      prev + [AssignTicketId([], years[|years| - 1], last)]
  }

  /** The `k`-th generated id carries the number `k + 1`, so no two of them
      share a number even when they are created in different years. */
  lemma {:induction false} GeneratedNumbers(years: seq<nat>)
    ensures forall k :: 0 <= k < |years| ==>
              GenerateIds(years)[k] == FormatTicketId(years[k], Num(k + 1))
    decreases |years|
  {
    if years != [] {
      var init := years[..|years| - 1];
      GeneratedNumbers(init);
      var prev := GenerateIds(init);
      var last := if prev == [] then None else Some(prev[|prev| - 1]);
      assert NextNumber(last) == Num(|prev| + 1) by {
        if prev != [] {
          NextAfterFormatted(init[|prev| - 1], |prev|);
        }
      }
      assert years == init + [years[|years| - 1]];
      NumberedAppend(prev, init, years[|years| - 1]);
    }
  }

  /** Numbering one more id after `|init|` numbered ones keeps the
      numbering. */
  lemma NumberedAppend(prev: seq<string>, init: seq<nat>, year: nat)
    requires |prev| == |init|
    requires forall k :: 0 <= k < |init| ==> prev[k] == FormatTicketId(init[k], Num(k + 1))
    ensures var ids := prev + [FormatTicketId(year, Num(|init| + 1))];
            forall k :: 0 <= k < |init| + 1 ==> ids[k] == FormatTicketId((init + [year])[k], Num(k + 1))
  {
  }

  /** A generated id has the year before the dash and at least five digits
      after it. */
  lemma FormatShape(year: nat, n: nat)
    ensures var id := FormatTicketId(year, Num(n));
            var parts := Split(id, '-');
            |parts| == 2 && parts[0] == NatToString(year) && |parts[1]| >= 5
  {
    var y := NatToString(year);
    var p := PadStart(NatToString(n), 5, '0');
    assert FormatTicketId(year, Num(n)) == y + ['-'] + p;
    SplitPrefix(y, '-', p);
    SplitNoSep(p, '-');
  }
}
