/** The rules of one displayed comment: who may edit or delete it, when a
    reply is offered, how its age is written, and which edits are sent. */
module CommentDisplay {
  import opened Wrappers
  import opened JsText
  import opened Content

  /** The signed-in user as the page sees it. */
  datatype Viewer = Viewer(uid: string, role: string)

  const MaxDepth := 3

  /** `isOwner || isAdmin`. */
  predicate CanModify(viewer: Option<Viewer>, c: Comment) {
    viewer.Some? && (viewer.value.uid == c.userId || viewer.value.role == "admin")
  }

  /** The edit/delete menu button: only for those who may modify the comment,
      and not while it is being edited. */
  function ShowMenu(viewer: Option<Viewer>, c: Comment, editing: bool): (r: bool)
    ensures r <==> !editing && viewer.Some? && (viewer.value.uid == c.userId || viewer.value.role == "admin")
  {
    CanModify(viewer, c) && !editing
  }

  /** The reply button: below the maximum depth and not while editing. */
  function ShowReply(level: int, editing: bool): (r: bool)
    ensures r ==> !editing && level <= 2
    ensures !editing && level < MaxDepth ==> r
  {
    !editing && level < MaxDepth
  }

  /** A signed-out viewer never gets the menu; an admin gets it on every
      comment that is not being edited. */
  lemma MenuForAdmins(c: Comment, uid: string)
    ensures !ShowMenu(None, c, false)
    ensures ShowMenu(Some(Viewer(uid, "admin")), c, false)
    ensures forall v :: !ShowMenu(v, c, true)
  {
  }

  const MinuteMs := 60000
  const HourMs := 3600000
  const DayMs := 86400000
  const WeekMs := 604800000

  /** The age classes `formatDate` writes. */
  datatype Age = JustNow | MinutesAgo(m: int) | HoursAgo(h: int) | DaysAgo(d: int) | OnDate

  /** `formatDate` on integer milliseconds: `age` is `now - timestamp`. */
  function AgeOf(age: int): (r: Age)
    ensures r == JustNow <==> age < 2 * MinuteMs
    ensures r.MinutesAgo? ==> 2 <= r.m <= 59 && r.m * MinuteMs <= age < (r.m + 1) * MinuteMs
    ensures r.HoursAgo? ==> 1 <= r.h <= 23 && r.h * HourMs <= age < (r.h + 1) * HourMs
    ensures r.DaysAgo? ==> 1 <= r.d <= 6 && r.d * DayMs <= age < (r.d + 1) * DayMs
    ensures r == OnDate <==> age >= WeekMs
  {
    if age < HourMs then
      var minutes := age / MinuteMs;
      if minutes <= 1 then JustNow else MinutesAgo(minutes)
    else if age < DayMs then HoursAgo(age / HourMs)
    else if age < WeekMs then DaysAgo(age / HourMs / 24)
    else OnDate
  }

  /** Every age up to a week falls into the class of its unit. */
  lemma AgeClasses(age: int)
    ensures 2 * MinuteMs <= age < HourMs ==> AgeOf(age).MinutesAgo?
    ensures HourMs <= age < DayMs ==> AgeOf(age).HoursAgo?
    ensures DayMs <= age < WeekMs ==> AgeOf(age).DaysAgo?
  {
  }

  /** The text of an age; `localeDate` is the locale's rendering of the
      timestamp. */
  function FormatDate(now: int, timestamp: int, localeDate: string): (r: string)
    ensures now - timestamp < 2 * MinuteMs ==> r == "just now"
    ensures now - timestamp >= WeekMs ==> r == localeDate
    ensures AgeOf(now - timestamp).MinutesAgo? ==> r == IntToString(AgeOf(now - timestamp).m) + "m ago"
    ensures AgeOf(now - timestamp).HoursAgo? ==> r == IntToString(AgeOf(now - timestamp).h) + "h ago"
    ensures AgeOf(now - timestamp).DaysAgo? ==> r == IntToString(AgeOf(now - timestamp).d) + "d ago"
  {
    match AgeOf(now - timestamp)
    case JustNow => "just now"
    case MinutesAgo(m) => IntToString(m) + "m ago"
    case HoursAgo(h) => IntToString(h) + "h ago"
    case DaysAgo(d) => IntToString(d) + "d ago"
    case OnDate => localeDate
  }

  /** A comment from the future is "just now". */
  lemma FutureIsJustNow(now: int, timestamp: int, localeDate: string)
    requires timestamp > now
    ensures FormatDate(now, timestamp, localeDate) == "just now"
  {
  }

  /** The edit form's guard: a text that is blank after trimming is not
      sent; otherwise the trimmed text is. */
  function EditToSend(editContent: string): (r: Option<string>)
    ensures r.None? <==> AllSpace(editContent)
    ensures r.Some? ==> r.value == Trim(editContent) && r.value != []
                        && !IsSpace(r.value[0]) && !IsSpace(r.value[|r.value| - 1])
  {
    var t := Trim(editContent);
    if t == "" then None else Some(t)
  }
}
