/** The generate route: picks the topic and base prompt, asks the language
    model for a post (the reply is a parameter), and stores the post it
    describes. */
module GenerateApi {
  import opened Wrappers
  import opened Json
  import opened Slug
  import opened Content

  /** A body that passed `GenerateSchema`. */
  datatype GenerateRequest = GenerateRequest(overrideTopic: Option<string>, overridePrompt: Option<string>)

  function OptionalString(v: JsValue): (r: Option<Option<string>>)
    ensures r.None? <==> !(v.JUndefined? || v.JStr?)
    ensures v.JStr? ==> r == Some(Some(v.s))
  {
    match v
    case JUndefined => Some(None)
    case JStr(s) => Some(Some(s))
    case _ => None
  }

  /** `GenerateSchema.parse(body)`; `None` when it throws. */
  function ParseGenerate(body: JsValue): (r: Option<GenerateRequest>)
    ensures !body.JObj? ==> r.None?
  {
    if !body.JObj? then None
    else
      var t := OptionalString(Get(body, "overrideTopic"));
      var p := OptionalString(Get(body, "overridePrompt"));
      if t.Some? && p.Some? then Some(GenerateRequest(t.value, p.value)) else None
  }

  /** `override ?? settings?.field ?? ""`. */
  function Choose(override: Option<string>, stored: Option<string>): (r: string)
    ensures override.Some? ==> r == override.value
    ensures override.None? && stored.Some? ==> r == stored.value
    ensures override.None? && stored.None? ==> r == ""
  {
    if override.Some? then override.value else stored.GetOr("")
  }

  function Topic(req: GenerateRequest, settings: Option<GeneralDoc>): string {
    Choose(req.overrideTopic, settings.GetOr(EmptyGeneral).topic)
  }

  function BasePrompt(req: GenerateRequest, settings: Option<GeneralDoc>): string {
    Choose(req.overridePrompt, settings.GetOr(EmptyGeneral).basePrompt)
  }

  /** The user message sent to the model. */
  function UserPrompt(basePrompt: string, topic: string): (r: string)
    ensures basePrompt <= r && r[|basePrompt|..] == "\n\nTopic: " + topic
  {
    basePrompt + "\n\nTopic: " + topic
  }

  /** The post stored for a parsed reply whose `title` is a string. */
  function PostFromReply(parsed: JsValue, now: int): (p: PostDoc)
    requires Get(parsed, "title").JStr?
    ensures p.title == Get(parsed, "title").s && p.slug == Slugify(p.title)
    ensures p.metaDescription == Get(parsed, "meta_description")
    ensures p.contentHtml == Get(parsed, "content")
    ensures Nullish(Get(parsed, "tags")) ==> p.tags == JArr([])
    ensures !Nullish(Get(parsed, "tags")) ==> p.tags == Get(parsed, "tags")
    ensures p.images == [] && p.status == Published && p.createdAt == now
  {
    var title := Get(parsed, "title").s;
    PostDoc(Slugify(title), title, Get(parsed, "meta_description"), Coalesce(Get(parsed, "tags"), JArr([])),
            Get(parsed, "content"), [], now, Published)
  }

  datatype GenerateAnswer = Generated(post: PostDoc) | MissingTopicOrPrompt | ServerError

  /** A parsed reply the route can store: `slugify(parsed.title)` throws
      unless the title is a string, and the server-side `add` rejects a
      document with an `undefined` field, which `metaDescription` and
      `contentHtml` are when the reply lacks `meta_description` or
      `content` (`tags` never is, through `?? []`). */
  predicate Storable(parsed: JsValue) {
    Get(parsed, "title").JStr? && !Get(parsed, "meta_description").JUndefined? && !Get(parsed, "content").JUndefined?
  }

  /** What the route did: the prompt it sent to the model, if it got that
      far, and its answer; a post is stored exactly when the answer is
      `Generated`. */
  datatype GenerateOutcome = GenerateOutcome(prompt: Option<string>, answer: GenerateAnswer)

  /** `request.json().catch(() => ({}))` followed by the schema. */
  function RequestOf(body: Option<JsValue>): Option<GenerateRequest> {
    ParseGenerate(body.GetOr(JObj(map[])))
  }

  /** The route. `body` is `None` when the request body is not JSON, which
      then counts as `{}`; `settings` is the general settings document;
      `reply` is the model's answer to the prompt; `now` is the clock. */
  function Generate(body: Option<JsValue>, settings: Option<GeneralDoc>, reply: ModelReply, now: int): (r: GenerateOutcome)
    ensures body.Some? && ParseGenerate(body.value).None? ==> r == GenerateOutcome(None, ServerError)
    ensures r.answer == MissingTopicOrPrompt <==> r.prompt.None? && r.answer != ServerError
    ensures r.prompt.Some? <==> (RequestOf(body).Some? && Topic(RequestOf(body).value, settings) != ""
                                 && BasePrompt(RequestOf(body).value, settings) != "")
    ensures r.prompt.Some? ==> r.prompt.value == UserPrompt(BasePrompt(RequestOf(body).value, settings),
                                                            Topic(RequestOf(body).value, settings))
    ensures r.answer.Generated? <==> r.prompt.Some? && ReplyJson(reply).Some? && Storable(ReplyJson(reply).value)
    ensures r.prompt.Some? && !r.answer.Generated? ==> r.answer == ServerError
    ensures r.answer.Generated? ==> r.answer.post == PostFromReply(ReplyJson(reply).value, now)
  {
    match RequestOf(body)
    case None => GenerateOutcome(None, ServerError)
    case Some(req) =>
      var topic := Topic(req, settings);
      var basePrompt := BasePrompt(req, settings);
      if topic == "" || basePrompt == "" then GenerateOutcome(None, MissingTopicOrPrompt)
      else
        var prompt := UserPrompt(basePrompt, topic);
        match ReplyJson(reply)
        case None => GenerateOutcome(Some(prompt), ServerError)
        case Some(parsed) =>
          if Storable(parsed) then GenerateOutcome(Some(prompt), Generated(PostFromReply(parsed, now)))
          else GenerateOutcome(Some(prompt), ServerError)
  }

  /** A body that is not JSON is the empty object: the settings decide. */
  lemma UnparseableBodyUsesSettings(settings: Option<GeneralDoc>, reply: ModelReply, now: int)
    ensures Generate(None, settings, reply, now) == Generate(Some(JObj(map[])), settings, reply, now)
    ensures ParseGenerate(JObj(map[])) == Some(GenerateRequest(None, None))
  {
    assert Get(JObj(map[]), "overrideTopic") == JUndefined;
    assert Get(JObj(map[]), "overridePrompt") == JUndefined;
  }

  /** An override wins even when it is empty, and an empty topic or base
      prompt stops the route before the model is asked. */
  lemma EmptyOverrideStops(settings: Option<GeneralDoc>, reply: ModelReply, now: int)
    ensures Generate(Some(JObj(map["overrideTopic" := JStr("")])), settings, reply, now)
            == GenerateOutcome(None, MissingTopicOrPrompt)
  {
    var body := JObj(map["overrideTopic" := JStr("")]);
    assert Get(body, "overrideTopic") == JStr("");
    assert Get(body, "overridePrompt") == JUndefined;
  }

  /** A reply with a title but no description or content is not stored:
      the write rejects the `undefined` fields and the route answers 500. */
  lemma UndefinedFieldsRejected(settings: GeneralDoc, title: string, now: int)
    requires settings.topic.Some? && settings.topic.value != ""
    requires settings.basePrompt.Some? && settings.basePrompt.value != ""
    ensures Generate(None, Some(settings), Replied(Some(JObj(map["title" := JStr(title)]))), now).answer == ServerError
  {
    UnparseableBodyUsesSettings(Some(settings), Replied(Some(JObj(map["title" := JStr(title)]))), now);
    assert Get(JObj(map["title" := JStr(title)]), "meta_description") == JUndefined;
  }

  /** A silent model gives `{}`, which has no title: nothing is stored. */
  lemma SilentModelStoresNothing(body: Option<JsValue>, settings: Option<GeneralDoc>, now: int)
    ensures !Generate(body, settings, Silent, now).answer.Generated?
  {
    assert Get(JObj(map[]), "title") == JUndefined;
  }
}
