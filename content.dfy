/** The stored records several parts of the blog share: comments, posts and
    the `settings/general` document. */
module Content {
  import opened Wrappers
  import opened Json

  /** A comment as the comments API stores and returns it. The author's
      name and e-mail are copied from the user document, whatever their type
      there. */
  datatype Comment = Comment(
    id: string,
    postId: string,
    userId: string,
    userName: JsValue,
    userEmail: JsValue,
    content: string,
    createdAt: int,
    isApproved: bool,
    parentId: Option<string>)

  /** `if (comment.parentId)`: a reply names a non-empty parent id. */
  predicate HasParent(c: Comment) {
    c.parentId.Some? && c.parentId.value != ""
  }

  datatype Status = Draft | Published | Failed

  /** A post document as the post routes write it; the fields a model reply
      supplies are kept as the reply gave them. */
  datatype PostDoc = PostDoc(
    slug: string,
    title: string,
    metaDescription: JsValue,
    tags: JsValue,
    contentHtml: JsValue,
    images: seq<string>,
    createdAt: int,
    status: Status)

  /** The language model's reply, passed in: `Silent` when the first choice
      carries no message content, otherwise what `JSON.parse` makes of the
      content (`None` when it throws). */
  datatype ModelReply = Silent | Replied(json: Option<JsValue>)

  /** `JSON.parse(content ?? "{}")`. */
  function ReplyJson(r: ModelReply): (j: Option<JsValue>)
    ensures r.Silent? ==> j == Some(JObj(map[]))
    ensures r.Replied? ==> j == r.json
  {
    if r.Silent? then Some(JObj(map[])) else r.json
  }

  /** The `schedule` map of the general settings document; `None` is an
      absent (or null) field. */
  datatype ScheduleDoc = ScheduleDoc(frequency: Option<string>, time: Option<string>)

  /** The `settings/general` document.  The same shape serves as a write
      payload, where `None` means that the field is not written. */
  datatype GeneralDoc = GeneralDoc(
    blogTitle: Option<string>,
    topic: Option<string>,
    basePrompt: Option<string>,
    schedule: Option<ScheduleDoc>,
    commentsEnabled: Option<bool>)

  const EmptyGeneral := GeneralDoc(None, None, None, None, None)

  function Over<T>(written: Option<T>, prev: Option<T>): (r: Option<T>)
    ensures written.Some? ==> r == written
    ensures written.None? ==> r == prev
  {
    if written.Some? then written else prev
  }

  function MergeSchedule(prev: Option<ScheduleDoc>, w: Option<ScheduleDoc>): (r: Option<ScheduleDoc>)
    ensures w.None? ==> r == prev
    ensures w.Some? && prev.None? ==> r == w
    ensures w.Some? && prev.Some? ==> r == Some(ScheduleDoc(Over(w.value.frequency, prev.value.frequency),
                                                           Over(w.value.time, prev.value.time)))
  {
    match w
    case None => prev
    case Some(ws) =>
      match prev
      case None => w
      case Some(os) => Some(ScheduleDoc(Over(ws.frequency, os.frequency), Over(ws.time, os.time)))
  }

  /** `setDoc(ref, payload, { merge: true })`: the written fields replace the
      stored ones, nested maps are merged field by field, everything else is
      kept. */
  function MergeGeneral(stored: Option<GeneralDoc>, w: GeneralDoc): (r: GeneralDoc)
    ensures w.blogTitle.Some? ==> r.blogTitle == w.blogTitle
    ensures w.topic.Some? ==> r.topic == w.topic
    ensures w.basePrompt.Some? ==> r.basePrompt == w.basePrompt
    ensures w.commentsEnabled.Some? ==> r.commentsEnabled == w.commentsEnabled
    ensures w.schedule.None? ==> r.schedule == stored.GetOr(EmptyGeneral).schedule
    ensures w.blogTitle.None? ==> r.blogTitle == stored.GetOr(EmptyGeneral).blogTitle
    ensures w.topic.None? ==> r.topic == stored.GetOr(EmptyGeneral).topic
    ensures w.basePrompt.None? ==> r.basePrompt == stored.GetOr(EmptyGeneral).basePrompt
    ensures w.commentsEnabled.None? ==> r.commentsEnabled == stored.GetOr(EmptyGeneral).commentsEnabled
  {
    var d := stored.GetOr(EmptyGeneral);
    GeneralDoc(
      Over(w.blogTitle, d.blogTitle),
      Over(w.topic, d.topic),
      Over(w.basePrompt, d.basePrompt),
      MergeSchedule(d.schedule, w.schedule),
      Over(w.commentsEnabled, d.commentsEnabled))
  }

  /** Writing the same merge payload twice stores what writing it once does. */
  lemma MergeGeneralTwice(stored: Option<GeneralDoc>, w: GeneralDoc)
    ensures MergeGeneral(Some(MergeGeneral(stored, w)), w) == MergeGeneral(stored, w)
  {
  }
}
