/** The time gate of direct messaging: the session instant is built from the
    stored date and time strings, and a direct message may be sent from one
    hour before that instant to two hours after it, both ends included. */
module SessionWindow {
  import opened Common

  /** How long before the session instant the window opens: one hour. */
  const OpenLeadMs: int := 60 * 60 * 1000

  /** How long after the session instant the window closes: two hours. */
  const CloseLagMs: int := 2 * 60 * 60 * 1000

  /** The characters `String.prototype.trim` removes: ECMAScript WhiteSpace
      (tab, vertical tab, form feed, space, no-break space, zero-width no-break
      space and the other space separators) and LineTerminator. */
  predicate IsTrimmable(c: char) {
    c == '\t' || c == '\n' || c == '\U{000B}' || c == '\U{000C}' || c == '\r' || c == ' '
    || c == '\U{00A0}' || c == '\U{1680}' || ('\U{2000}' <= c <= '\U{200A}')
    || c == '\U{2028}' || c == '\U{2029}' || c == '\U{202F}' || c == '\U{205F}'
    || c == '\U{3000}' || c == '\U{FEFF}'
  }

  /** The index of the first character at or after `k` that is not
      trimmable, `|s|` when there is none. */
  function KeptStart(s: string, k: nat): (n: nat)
    requires k <= |s|
    ensures k <= n <= |s|
    ensures forall i :: k <= i < n ==> IsTrimmable(s[i])
    ensures n < |s| ==> !IsTrimmable(s[n])
    decreases |s| - k
  {
    if k < |s| && IsTrimmable(s[k]) then KeptStart(s, k + 1) else k
  }

  /** The end of `s[lo..k]` once its trailing trimmable characters are cut:
      the least `n >= lo` such that `s[n..k]` is all trimmable. */
  function KeptEnd(s: string, lo: nat, k: nat): (n: nat)
    requires lo <= k <= |s|
    ensures lo <= n <= k
    ensures forall i :: n <= i < k ==> IsTrimmable(s[i])
    ensures n > lo ==> !IsTrimmable(s[n - 1])
    decreases k
  {
    if k > lo && IsTrimmable(s[k - 1]) then KeptEnd(s, lo, k - 1) else k
  }

  /** `String.prototype.trim`: `s` without leading and trailing whitespace;
      the result is a slice of `s`, and what was cut off is whitespace only. */
  function Trim(s: string): (r: string)
    ensures |r| <= |s|
    ensures r != [] ==> !IsTrimmable(r[0]) && !IsTrimmable(r[|r| - 1])
    ensures (s == [] || (!IsTrimmable(s[0]) && !IsTrimmable(s[|s| - 1]))) ==> r == s
    ensures (forall i :: 0 <= i < |s| ==> IsTrimmable(s[i])) ==> r == []
    ensures exists a, b :: && 0 <= a <= b <= |s| && r == s[a..b]
                           && (forall i :: 0 <= i < a ==> IsTrimmable(s[i]))
                           && (forall i :: b <= i < |s| ==> IsTrimmable(s[i]))
  {
    var a := KeptStart(s, 0);
    var b := KeptEnd(s, a, |s|);
    assert a < b ==> s[a..b][0] == s[a] && s[a..b][b - a - 1] == s[b - 1];
    s[a..b]
  }

  /** Trimming twice is trimming once. */
  lemma TrimIdempotent(s: string)
    ensures Trim(Trim(s)) == Trim(s)
  {
  }

  /** The string handed to `new Date(...)`: `${date}T${time.trim()}:00Z`. */
  function InstantString(date: string, time: string): string {
    date + "T" + Trim(time) + ":00Z"
  }

  /** The window around a session instant, carried in the 403 diagnostics. */
  datatype Window = Window(sessionTime: int, open: int, close: int)

  /** The window of the session at instant `t` (milliseconds since the epoch). */
  function WindowAt(t: int): (w: Window)
    ensures w.sessionTime == t
    ensures w.open == t - 3_600_000 && w.close == t + 7_200_000
    ensures w.close - w.open == 3 * 3_600_000
  {
    Window(t, t - OpenLeadMs, t + CloseLagMs)
  }

  /** The rejection test `!devMode && (now < openTime || now > closeTime)`.
      `instant` is the parsed session instant, `None` for an Invalid Date:
      every comparison with NaN is false, so such a session never rejects. */
  predicate Rejects(instant: Option<int>, now: int, devMode: bool) {
    !devMode && instant.Some? && (now < WindowAt(instant.value).open || now > WindowAt(instant.value).close)
  }

  /** For a session at a valid instant `t`, a send is let through iff devMode
      is set or `t - 1h <= now <= t + 2h`, both bounds inclusive. */
  lemma WindowIff(t: int, now: int, devMode: bool)
    ensures !Rejects(Some(t), now, devMode) <==> devMode || (t - 3_600_000 <= now <= t + 7_200_000)
  {
  }

  /** An unparseable session instant never rejects. */
  lemma InvalidInstantNeverRejects(now: int, devMode: bool)
    ensures !Rejects(None, now, devMode)
  {
  }

  /** The session "2024-06-01" at "10:00" is written "2024-06-01T10:00:00Z". */
  lemma InstantStringExample()
    ensures InstantString("2024-06-01", "10:00") == "2024-06-01T10:00:00Z"
  {
    var d, t := "2024-06-01", "10:00";
    assert d + "T" + t + ":00Z" == "2024-06-01T10:00:00Z";
    assert Trim(t) == t by {
      assert !IsTrimmable(t[0]) && !IsTrimmable(t[|t| - 1]);
    }
  }
}
