/** The posts API: `POST` stores a placeholder post built from an optional
    title, meta description and tag list; `DELETE` removes the post named
    by the `id` query parameter. */
module PostsApi {
  import opened Wrappers
  import opened JsText
  import opened Json
  import opened Slug
  import opened Content

  const DefaultTitle := "Placeholder Post Title"
  const DefaultMetaDescription := "This is a placeholder meta description for an AI-generated blog post."
  const DefaultTags := ["placeholder", "ai", "blog"]

  /** A body that passed `PlaceholderSchema`; `None` is an omitted field. */
  datatype PlaceholderRequest = PlaceholderRequest(
    title: Option<string>,
    metaDescription: Option<string>,
    tags: Option<seq<string>>)

  /** `z.array(z.string())`. */
  function StringArray(elems: seq<JsValue>): (r: Option<seq<string>>)
    ensures r.Some? <==> forall k :: 0 <= k < |elems| ==> elems[k].JStr?
    ensures r.Some? ==> |r.value| == |elems| && forall k :: 0 <= k < |elems| ==> r.value[k] == elems[k].s
  {
    if elems == [] then Some([])
    else
      var init := StringArray(elems[..|elems| - 1]);
      var last := elems[|elems| - 1];
      if init.Some? && last.JStr? then Some(init.value + [last.s])
      else
        assert !last.JStr? ==> !elems[|elems| - 1].JStr?;
        None
  }

  /** An optional string field: `Some(None)` when absent, `None` when the
      schema rejects it. */
  function OptionalString(v: JsValue): (r: Option<Option<string>>)
    ensures r.None? <==> !(v.JUndefined? || v.JStr?)
  {
    match v
    case JUndefined => Some(None)
    case JStr(s) => Some(Some(s))
    case _ => None
  }

  function OptionalStrings(v: JsValue): Option<Option<seq<string>>> {
    match v
    case JUndefined => Some(None)
    case JArr(es) => if StringArray(es).Some? then Some(StringArray(es)) else None
    case _ => None
  }

  /** `PlaceholderSchema.parse(body) ?? {}`; `None` when parsing throws,
      which the framework answers with 500. */
  function ParsePlaceholder(body: JsValue): (r: Option<PlaceholderRequest>)
    ensures body.JUndefined? ==> r == Some(PlaceholderRequest(None, None, None))
    ensures !(body.JUndefined? || body.JObj?) ==> r.None?
  {
    match body
    case JUndefined => Some(PlaceholderRequest(None, None, None))
    case JObj(_) =>
      var t := OptionalString(Get(body, "title"));
      var m := OptionalString(Get(body, "metaDescription"));
      var g := OptionalStrings(Get(body, "tags"));
      if t.Some? && m.Some? && g.Some? then Some(PlaceholderRequest(t.value, m.value, g.value)) else None
    case _ => None
  }

  const PlaceholderBody := "<p>This is placeholder content. Real generated content will appear here later.</p>"
                           + "<h2>Section heading</h2><p>More placeholder text to simulate structure.</p>"

  /** The placeholder HTML, with the title inserted as it is. */
  function PlaceholderHtml(title: string): (r: string)
    ensures "<h1>" + title + "</h1>" <= r
  {
    "<h1>" + title + "</h1>" + PlaceholderBody
  }

  function Strs(ss: seq<string>): (r: seq<JsValue>)
    ensures |r| == |ss| && forall k :: 0 <= k < |ss| ==> r[k] == JStr(ss[k])
  {
    if ss == [] then [] else Strs(ss[..|ss| - 1]) + [JStr(ss[|ss| - 1])]
  }

  /** The stored post; `slugClock` and `now` are the two readings of the
      clock, for the slug and for `createdAt`. */
  function PlaceholderPost(req: PlaceholderRequest, slugClock: int, now: int): (p: PostDoc)
    ensures p.title == req.title.GetOr(DefaultTitle)
    ensures p.metaDescription == JStr(req.metaDescription.GetOr(DefaultMetaDescription))
    ensures p.tags == JArr(Strs(req.tags.GetOr(DefaultTags)))
    ensures p.contentHtml == JStr(PlaceholderHtml(p.title))
    ensures p.slug == Slugify(p.title + "-" + IntToString(slugClock))
    ensures p.status == Published && p.images == [] && p.createdAt == now
  {
    var title := req.title.GetOr(DefaultTitle);
    PostDoc(Slugify(title + "-" + IntToString(slugClock)), title,
            JStr(req.metaDescription.GetOr(DefaultMetaDescription)),
            JArr(Strs(req.tags.GetOr(DefaultTags))), JStr(PlaceholderHtml(title)),
            [], now, Published)
  }

  datatype CreateAnswer = Created(post: PostDoc) | ServerError

  /** `POST`: a body that is not JSON (`None`) counts as `{}`. */
  function CreatePlaceholder(body: Option<JsValue>, slugClock: int, now: int): (r: CreateAnswer)
    ensures body.None? ==> r == Created(PlaceholderPost(PlaceholderRequest(None, None, None), slugClock, now))
    ensures r.ServerError? <==> body.Some? && ParsePlaceholder(body.value).None?
  {
    var b := body.GetOr(JObj(map[]));
    assert Get(JObj(map[]), "title") == JUndefined;
    assert Get(JObj(map[]), "metaDescription") == JUndefined;
    assert Get(JObj(map[]), "tags") == JUndefined;
    match ParsePlaceholder(b)
    case None => ServerError
    case Some(req) => Created(PlaceholderPost(req, slugClock, now))
  }

  /** Supplied values are kept even when empty; only absent ones default. */
  lemma SuppliedValuesKept(title: string, metaDescription: string, slugClock: int, now: int)
    ensures var body := JObj(map["title" := JStr(title), "metaDescription" := JStr(metaDescription), "tags" := JArr([])]);
      && ParsePlaceholder(body) == Some(PlaceholderRequest(Some(title), Some(metaDescription), Some([])))
      && CreatePlaceholder(Some(body), slugClock, now).Created?
      && CreatePlaceholder(Some(body), slugClock, now).post.title == title
      && CreatePlaceholder(Some(body), slugClock, now).post.metaDescription == JStr(metaDescription)
      && CreatePlaceholder(Some(body), slugClock, now).post.tags == JArr([])
  {
    var body := JObj(map["title" := JStr(title), "metaDescription" := JStr(metaDescription), "tags" := JArr([])]);
    assert Get(body, "title") == JStr(title);
    assert Get(body, "metaDescription") == JStr(metaDescription);
    assert Get(body, "tags") == JArr([]);
    assert StringArray([]) == Some([]);
    assert ParsePlaceholder(body) == Some(PlaceholderRequest(Some(title), Some(metaDescription), Some([])));
  }

  /** `null` is not an accepted body: the schema throws. */
  lemma NullBodyFails(slugClock: int, now: int)
    ensures CreatePlaceholder(Some(JNull), slugClock, now) == ServerError
  {
  }

  /** A title of more than six words fills the slug's word cap, so the
      timestamp never reaches the slug. */
  lemma LongTitleLosesTimestamp(req: PlaceholderRequest, slugClock: int, now: int)
    requires |Words(req.title.GetOr(DefaultTitle))| > 6
    ensures PlaceholderPost(req, slugClock, now).slug == Slugify(req.title.GetOr(DefaultTitle))
  {
    var title := req.title.GetOr(DefaultTitle);
    assert title + "-" + IntToString(slugClock) == title + ("-" + IntToString(slugClock));
    SlugifyExtend(title, "-" + IntToString(slugClock), 6);
  }

  datatype DeleteAnswer = MissingId | Deleted(id: string)

  /** `DELETE`: a missing or empty `id` is answered 400 and deletes nothing. */
  function DeletePost(id: Option<string>): (r: DeleteAnswer)
    ensures r == MissingId <==> id.None? || id.value == ""
    ensures r.Deleted? ==> id == Some(r.id)
  {
    if id.None? || id.value == "" then MissingId else Deleted(id.value)
  }

  /** The posts collection after `DELETE`. */
  function PostsAfterDelete(posts: map<string, PostDoc>, answer: DeleteAnswer): (r: map<string, PostDoc>)
    ensures answer == MissingId ==> r == posts
    ensures answer.Deleted? ==> answer.id !in r && forall k :: k in posts && k != answer.id ==> k in r && r[k] == posts[k]
    ensures r.Keys <= posts.Keys
  {
    if answer.Deleted? then posts - {answer.id} else posts
  }
}
