/** The subject-finder route: checks the topic, collects the titles of the
    most recent published posts, and passes the model's reply through. */
module SubjectFinder {
  import opened Wrappers
  import opened Json
  import Content
  import opened FirestoreRest

  /** `Input.parse(body).topic`: an object whose `topic` is a non-empty
      string. */
  function TopicOf(body: JsValue): (r: Option<string>)
    ensures r.Some? <==> Get(body, "topic").JStr? && Get(body, "topic").s != [] && body.JObj?
    ensures r.Some? ==> r.value == Get(body, "topic").s
  {
    if body.JObj? && Get(body, "topic").JStr? && Get(body, "topic").s != [] then Some(Get(body, "topic").s)
    else None
  }

  /** `typeof p.title === "string" ? p.title : ""`. */
  function TitleOf(rec: Record): string {
    if "title" in rec && rec["title"].JStr? then rec["title"].s else ""
  }

  /** The `map` then `filter` over the recent posts, in their order. */
  function RecentTitles(recs: seq<Record>): (r: seq<string>)
    ensures |r| <= |recs|
    ensures forall t :: t in r ==> t != ""
  {
    if recs == [] then []
    else
      var t := TitleOf(recs[|recs| - 1]);
      RecentTitles(recs[..|recs| - 1]) + (if t != "" then [t] else [])
  }

  datatype SubjectAnswer =
    | Suggested(reply: JsValue)    // the model's JSON, passed on as it is
    | BadRequest                   // any failure: body, topic, fetch, or reply

  /** What the route did: the topic and titles it gave the model, if it
      got that far, and its answer. */
  datatype SubjectOutcome = SubjectOutcome(modelInput: Option<(string, seq<string>)>, answer: SubjectAnswer)

  /** The route. `body` is `None` when the request body is not JSON;
      `projectId` and `response` are what the published-posts fetch sees;
      `reply` is the model's answer. */
  function FindSubject(body: Option<JsValue>, projectId: string, response: Response, reply: Content.ModelReply)
      : (r: SubjectOutcome)
    ensures body.None? || TopicOf(body.value).None? ==> r == SubjectOutcome(None, BadRequest)
    ensures projectId == "" ==> r.answer == BadRequest
    ensures r.modelInput.Some? ==> r.modelInput.value.0 != ""
    ensures r.modelInput.Some? ==> Published(projectId, response).Ok?
    ensures r.modelInput.Some? ==> r.modelInput.value.1 == RecentTitles(Published(projectId, response).value)
    ensures r.answer.Suggested? <==> r.modelInput.Some? && Content.ReplyJson(reply).Some?
    ensures r.answer.Suggested? ==> r.answer.reply == Content.ReplyJson(reply).value
  {
    if body.None? then SubjectOutcome(None, BadRequest)
    else match TopicOf(body.value)
      case None => SubjectOutcome(None, BadRequest)
      case Some(topic) =>
        match Published(projectId, response)
        case Err(_) => SubjectOutcome(None, BadRequest)
        case Ok(recent) =>
          var input := (topic, RecentTitles(recent));
          match Content.ReplyJson(reply)
          case None => SubjectOutcome(Some(input), BadRequest)
          case Some(parsed) => SubjectOutcome(Some(input), Suggested(parsed))
  }

  lemma {:induction false} CountWithDocumentBound(rows: seq<Row>)
    ensures CountWithDocument(rows) <= |rows|
  {
    if rows != [] {
      CountWithDocumentBound(rows[..|rows| - 1]);
    }
  }

  /** With the fetch limited to four rows, at most four titles reach the
      model. */
  lemma AtMostFourTitles(body: Option<JsValue>, projectId: string, rows: seq<Row>, reply: Content.ModelReply)
    requires |rows| <= 4
    ensures var r := FindSubject(body, projectId, HttpOk(rows), reply);
      r.modelInput.Some? ==> |r.modelInput.value.1| <= 4
  {
    if projectId != "" {
      PublishedSpec(projectId, rows, 0);
      CountWithDocumentBound(rows);
    }
  }

  /** A title that is missing, not a string, or empty is dropped; the
      others keep their order. */
  lemma {:induction false} TitlesKept(recs: seq<Record>, i: nat, j: nat)
    requires i < j < |recs| && TitleOf(recs[i]) != "" && TitleOf(recs[j]) != ""
    ensures exists a, b :: 0 <= a < b < |RecentTitles(recs)|
              && RecentTitles(recs)[a] == TitleOf(recs[i]) && RecentTitles(recs)[b] == TitleOf(recs[j])
  {
    var init := recs[..|recs| - 1];
    if j < |recs| - 1 {
      assert init[i] == recs[i] && init[j] == recs[j];
      TitlesKept(init, i, j);
      var a, b :| 0 <= a < b < |RecentTitles(init)|
        && RecentTitles(init)[a] == TitleOf(recs[i]) && RecentTitles(init)[b] == TitleOf(recs[j]);
      assert RecentTitles(recs)[a] == RecentTitles(init)[a];
      assert RecentTitles(recs)[b] == RecentTitles(init)[b];
    } else {
      TitleMember(init, i);
      var a :| 0 <= a < |RecentTitles(init)| && RecentTitles(init)[a] == TitleOf(recs[i]);
      assert RecentTitles(recs)[a] == RecentTitles(init)[a];
      assert RecentTitles(recs)[|RecentTitles(init)|] == TitleOf(recs[j]);
    }
  }

  lemma {:induction false} TitleMember(recs: seq<Record>, i: nat)
    requires i < |recs| && TitleOf(recs[i]) != ""
    ensures TitleOf(recs[i]) in RecentTitles(recs)
  {
    var init := recs[..|recs| - 1];
    if i < |recs| - 1 {
      assert init[i] == recs[i];
      TitleMember(init, i);
    }
  }

  /** Every listed title is the non-empty string title of some fetched
      post: a missing or non-string title is never listed. */
  lemma {:induction false} TitleSource(recs: seq<Record>, t: string)
    requires t in RecentTitles(recs)
    ensures exists i :: 0 <= i < |recs| && "title" in recs[i] && recs[i]["title"] == JStr(t) && t != ""
  {
    var init := recs[..|recs| - 1];
    if t in RecentTitles(init) {
      TitleSource(init, t);
      var i :| 0 <= i < |init| && "title" in init[i] && init[i]["title"] == JStr(t) && t != "";
      assert init[i] == recs[i];
    } else {
      assert t == TitleOf(recs[|recs| - 1]);
    }
  }

  /** The reply is passed on unchecked: one without `subject` or
      `contentPrompt`, even the empty object a silent model gives, is the
      answer. */
  lemma ReplyUnchecked(topic: string, projectId: string, response: Response)
    requires topic != "" && projectId != ""
    ensures FindSubject(Some(JObj(map["topic" := JStr(topic)])), projectId, response, Content.Silent).answer
            == Suggested(JObj(map[]))
  {
    assert Get(JObj(map["topic" := JStr(topic)]), "topic") == JStr(topic);
  }
}
