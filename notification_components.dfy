/** The presentation rules of the notification list: relative time labels, the
    unread badge, what clicking an item and its menu offer, and the icon and
    colour of each kind. The clock and the locale date format are parameters. */
module NotificationComponents {
  import opened Wrappers
  import opened Numbers
  import opened Notifications

  const MinuteMs: int := 60000
  const HourMs: int := 3600000
  const DayMs: int := 86400000
  const WeekMs: int := 604800000

  /** Which label a time difference gets, with the whole number it shows. */
  datatype TimeLabel =
    | JustNow
    | MinutesAgo(minutes: nat)
    | HoursAgo(hours: nat)
    | DaysAgo(days: nat)
    | AbsoluteDate

  /** The bucket of `diff = now - timestamp` (milliseconds). A timestamp in the
      future has a negative difference and reads as "Just now". Each count is
      the number of whole units elapsed, so minutes stay in 1..59, hours in
      1..23 and days in 1..6; a week or more falls to the absolute date. */
  function Bucket(diff: int): (b: TimeLabel)
    ensures b.JustNow? <==> diff < MinuteMs
    ensures b.MinutesAgo? <==> MinuteMs <= diff < HourMs
    ensures b.HoursAgo? <==> HourMs <= diff < DayMs
    ensures b.DaysAgo? <==> DayMs <= diff < WeekMs
    ensures b.AbsoluteDate? <==> WeekMs <= diff
    ensures b.MinutesAgo? ==> 1 <= b.minutes <= 59
                              && b.minutes * MinuteMs <= diff < (b.minutes + 1) * MinuteMs
    ensures b.HoursAgo? ==> 1 <= b.hours <= 23
                            && b.hours * HourMs <= diff < (b.hours + 1) * HourMs
    ensures b.DaysAgo? ==> 1 <= b.days <= 6
                           && b.days * DayMs <= diff < (b.days + 1) * DayMs
  {
    if diff < MinuteMs then JustNow
    else if diff < HourMs then MinutesAgo(diff / MinuteMs)
    else if diff < DayMs then HoursAgo(diff / HourMs)
    else if diff < WeekMs then DaysAgo(diff / DayMs)
    else AbsoluteDate
  }

  /** The text shown for a label; `dateText` is the locale's "MMM dd" rendering
      of the timestamp, used only for the absolute branch. */
  function Render(tag: TimeLabel, dateText: string): string
  {
    match tag
    case JustNow => "Just now"
    case MinutesAgo(m) => NatToString(m) + "m ago"
    case HoursAgo(h) => NatToString(h) + "h ago"
    case DaysAgo(d) => NatToString(d) + "d ago"
    case AbsoluteDate => dateText
  }

  /** Reads a relative label back from its text; any other text is `None`. */
  function ReadLabel(s: string): Option<TimeLabel>
  {
    if s == "Just now" then Some(JustNow)
    else if |s| > 5 && AllDigits(s[..|s| - 5]) then
      var n := DecimalValue(s[..|s| - 5]);
      var tail := s[|s| - 5..];
      if tail == "m ago" then Some(MinutesAgo(n))
      else if tail == "h ago" then Some(HoursAgo(n))
      else if tail == "d ago" then Some(DaysAgo(n))
      else None
    else None
  }

  /** A number followed by a unit suffix reads back as that number and unit. */
  lemma ReadCount(n: nat, suffix: string)
    requires |suffix| == 5
    ensures var s := NatToString(n) + suffix;
            |s| > 5 && s[..|s| - 5] == NatToString(n) && s[|s| - 5..] == suffix
            && s != "Just now" && AllDigits(s[..|s| - 5])
            && DecimalValue(s[..|s| - 5]) == n
  {
    var s := NatToString(n) + suffix;
    assert s[..|s| - 5] == NatToString(n);
    assert s[|s| - 5..] == suffix;
    assert IsDigit(s[0]);
    DecimalRoundTrip(n);
  }

  /** Every relative label's text reads back as that label: the texts of
      different relative labels differ. */
  lemma ReadRender(tag: TimeLabel, dateText: string)
    requires !tag.AbsoluteDate?
    ensures ReadLabel(Render(tag, dateText)) == Some(tag)
  {
    match tag
    case JustNow =>
    case MinutesAgo(m) => ReadCount(m, "m ago");
    case HoursAgo(h) => ReadCount(h, "h ago");
    case DaysAgo(d) => ReadCount(d, "d ago");
  }

  /** `formatTimestamp`: the relative label of `now - timestamp`, or the
      absolute date text from a week on. */
  function FormatTimestamp(timestamp: int, now: int, dateText: string): (r: string)
    ensures now - timestamp < WeekMs ==> ReadLabel(r) == Some(Bucket(now - timestamp))
    ensures now - timestamp >= WeekMs ==> r == dateText
    ensures now - timestamp < MinuteMs ==> r == "Just now"
    ensures MinuteMs <= now - timestamp < HourMs ==> r == NatToString((now - timestamp) / MinuteMs) + "m ago"
    ensures HourMs <= now - timestamp < DayMs ==> r == NatToString((now - timestamp) / HourMs) + "h ago"
    ensures DayMs <= now - timestamp < WeekMs ==> r == NatToString((now - timestamp) / DayMs) + "d ago"
  {
    var tag := Bucket(now - timestamp);
    if !tag.AbsoluteDate? then ReadRender(tag, dateText); Render(tag, dateText)
    else Render(tag, dateText)
  }

  /** `NotificationBadge`: shown only for a positive count; the text is the
      count itself up to nine and "9+" above, never more than two characters. */
  function BadgeLabel(count: int): (r: Option<string>)
    ensures r.Some? <==> count > 0
    ensures r.Some? ==> 1 <= |r.value| <= 2
    ensures r.Some? ==> (r.value == "9+" <==> count > 9)
    ensures 0 < count <= 9 ==> |r.value| == 1 && AllDigits(r.value) && DecimalValue(r.value) == count
  {
    if count <= 0 then None
    else if count > 9 then Some("9+")
    else
      DecimalRoundTrip(count);
      Some(NatToString(count))
  }

  /** What a click on an item does, in order. */
  datatype ItemAction = MarkAsRead | Open

  /** A click on an item first marks it read when it is unread, then always opens it. */
  function ItemClick(isRead: bool): (acts: seq<ItemAction>)
    ensures acts != [] && acts[|acts| - 1] == Open
    ensures MarkAsRead in acts <==> !isRead
    ensures forall i :: 0 <= i < |acts| - 1 ==> acts[i] == MarkAsRead
    ensures |acts| <= 2
  {
    if isRead then [Open] else [MarkAsRead, Open]
  }

  /** The entries of an item's overflow menu. */
  datatype MenuEntry = MarkAsReadEntry | DeleteEntry

  /** "Mark as read" is offered, first, only for an unread item; "Delete" is always offered, last. */
  function MenuEntries(isRead: bool): (r: seq<MenuEntry>)
    ensures DeleteEntry in r && r[|r| - 1] == DeleteEntry
    ensures MarkAsReadEntry in r <==> !isRead
    ensures |r| == if isRead then 1 else 2
  {
    if isRead then [DeleteEntry] else [MarkAsReadEntry, DeleteEntry]
  }

  /** A click on an item's card and its menu agree: the card marks the item
      read exactly when the menu offers to. */
  lemma ClickMatchesMenu(isRead: bool)
    ensures (MarkAsRead in ItemClick(isRead)) <==> (MarkAsReadEntry in MenuEntries(isRead))
  {
  }

  /** The material icons shown per kind. */
  datatype Icon = ShoppingCart | Search | Warning | MessageIcon | NotificationsIcon

  function IconFor(t: NotificationType): Icon
  {
    match t
    case Marketplace => ShoppingCart
    case LostAndFound => Search
    case Safety => Warning
    case Message => MessageIcon
    case General => NotificationsIcon
  }

  /** The ARGB colour per kind: every colour is fully opaque. */
  function ColourFor(t: NotificationType): (c: int)
    ensures 0 <= c < TwoTo32 && c / 0x100_0000 == 0xFF
  {
    match t
    case Marketplace => 0xFF4C_AF50
    case LostAndFound => 0xFF21_96F3
    case Safety => 0xFFF4_4336
    case Message => 0xFF9C_27B0
    case General => 0xFF60_7D8B
  }

  /** Both mappings cover every kind and tell kinds apart: no two kinds share
      an icon or a colour. */
  lemma IconAndColourDistinguishKinds(t: NotificationType, u: NotificationType)
    ensures IconFor(t) == IconFor(u) ==> t == u
    ensures ColourFor(t) == ColourFor(u) ==> t == u
  {
  }
}
