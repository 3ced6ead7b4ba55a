/** The notification text of an opened schedule (`_buildMessage` in background.js). */
module Messages {
  import opened Wrappers
  import opened Text

  /** The `opts` handed to `openScheduleNow`; `{}` is `OnTime`. */
  datatype DeliveryOpts = DeliveryOpts(late: bool, missedCount: nat, missedAt: Option<int>)

  const OnTime := DeliveryOpts(false, 0, None)

  const LatePrefix: string := "late \U{2014} missed "

  /** The late notice without its trailing space. */
  function Notice(missedCount: nat): (r: string)
    ensures StartsWith(r, LatePrefix)
    ensures |r| > 0 && r[|r| - 1] == '.'
  {
    if missedCount > 1 then LatePrefix + NatToString(missedCount) + " occurrences."
    else if missedCount == 1 then LatePrefix + "1 occurrence."
    else LatePrefix + "scheduled time."
  }

  /**
    `_buildMessage(s, opts)`: the schedule's message as it is when the open is
    on time; otherwise a late notice naming the missed count (plural, singular,
    or "scheduled time" when the count is unknown) before the message, the
    whole trimmed.
   */
  function BuildMessage(message: string, opts: DeliveryOpts): (r: string)
    ensures !opts.late ==> r == message
  {
    if !opts.late then message
    else if opts.missedCount > 1 then
      Trim(LatePrefix + NatToString(opts.missedCount) + " occurrences. " + message)
    else if opts.missedCount == 1 then Trim(LatePrefix + "1 occurrence. " + message)
    else Trim(LatePrefix + "scheduled time. " + message)
  }

  lemma TrimEndOfNotice(n: string)
    requires |n| > 0 && n[|n| - 1] == '.'
    ensures TrimEnd(n + " ") == n
  {
    TrimEndConcat(n, " ");
    assert IsWhitespace(" "[0]);
    assert " "[..0] == [];
  }

  lemma TrimOfSolidStart(n: string, message: string)
    requires |n| > 0 && !IsWhitespace(n[0])
    ensures Trim(n + " " + message) == TrimEnd(n + " " + message)
  {
    var whole := n + " " + message;
    assert whole[0] == n[0];
    TrimStartsSolid(whole);
  }

  lemma TrimEndBlankMessage(n: string, message: string)
    requires |n| > 0 && n[|n| - 1] == '.' && TrimEnd(message) == []
    ensures TrimEnd(n + " " + message) == n
  {
    TrimEndConcat(n + " ", message);
    TrimEndOfNotice(n);
  }

  lemma TrimEndVisibleMessage(n: string, message: string)
    requires TrimEnd(message) != []
    ensures TrimEnd(n + " " + message) == n + (" " + TrimEnd(message))
  {
    TrimEndConcat(n + " ", message);
  }

  /** Trimming a notice, a space and a message. */
  lemma TrimNoticeAndMessage(n: string, message: string)
    requires |n| > 0 && !IsWhitespace(n[0]) && n[|n| - 1] == '.'
    ensures Trim(n + " " + message) == n + (if TrimEnd(message) == [] then [] else " " + TrimEnd(message))
  {
    TrimOfSolidStart(n, message);
    if TrimEnd(message) == [] {
      TrimEndBlankMessage(n, message);
      assert n + [] == n;
    } else {
      TrimEndVisibleMessage(n, message);
    }
  }

  /**
    A late message is the notice, then (when the message has any visible text)
    one space and the message without its trailing whitespace. Leading
    whitespace of the message is kept.
   */
  lemma LateMessageShape(message: string, opts: DeliveryOpts)
    requires opts.late
    ensures BuildMessage(message, opts)
      == Notice(opts.missedCount) + (if TrimEnd(message) == [] then [] else " " + TrimEnd(message))
  {
    var n := Notice(opts.missedCount);
    if opts.missedCount > 1 {
      assert LatePrefix + NatToString(opts.missedCount) + " occurrences. " + message == n + " " + message;
    } else if opts.missedCount == 1 {
      assert LatePrefix + "1 occurrence. " + message == n + " " + message;
    } else {
      assert LatePrefix + "scheduled time. " + message == n + " " + message;
    }
    assert !IsWhitespace(n[0]);
    TrimNoticeAndMessage(n, message);
  }

  /** The count in a plural late notice reads back as the missed count. */
  lemma LateCountReadsBack(opts: DeliveryOpts)
    requires opts.late && opts.missedCount > 1
    ensures var digits := Notice(opts.missedCount)[|LatePrefix|..|Notice(opts.missedCount)| - |" occurrences."|];
      && (forall i :: 0 <= i < |digits| ==> IsDigit(digits[i]))
      && DigitsValue(digits) == opts.missedCount
  {
    var d := NatToString(opts.missedCount);
    assert Notice(opts.missedCount)[|LatePrefix|..|Notice(opts.missedCount)| - |" occurrences."|] == d;
    NatToStringRoundTrip(opts.missedCount);
  }
}
