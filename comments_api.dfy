/** The comments API: the bearer-token header check, the body schema of a
    new comment, the ordered checks of `POST`, the comment it stores, and
    the filter and sort of `GET`. */
module CommentsApi {
  import opened Wrappers
  import opened Json
  import opened Sorting
  import opened Content

  const BearerPrefix := "Bearer "

  /** The text of `s` before the first occurrence of `marker`. */
  function Before(s: string, marker: string): (r: string)
    requires marker != []
    ensures |r| <= |s|
  {
    if marker <= s then ""
    else if |s| == 0 then s
    else [s[0]] + Before(s[1..], marker)
  }

  /** The text is a prefix of `s` in which the marker does not start, and it
      ends where the marker first starts or at the end of `s`. */
  lemma {:induction false} BeforeSplits(s: string, marker: string)
    requires marker != []
    ensures var r := Before(s, marker);
      && r <= s
      && (forall i :: 0 <= i < |r| ==> !(marker <= s[i..]))
      && (r == s || marker <= s[|r|..])
  {
    if !(marker <= s) && |s| > 0 {
      BeforeSplits(s[1..], marker);
      var rest := Before(s[1..], marker);
      assert Before(s, marker) == [s[0]] + rest;
      assert forall i :: 1 <= i <= |rest| ==> s[i..] == s[1..][i - 1..];
    }
  }

  /** `verifyAuthToken` up to the token check: no header, or one without the
      exact case-sensitive `Bearer ` prefix, gives no token; otherwise the
      token is `header.split("Bearer ")[1]`, the text after the prefix up to
      any further `Bearer `. */
  function BearerToken(header: Option<string>): (r: Option<string>)
    ensures r.Some? <==> header.Some? && BearerPrefix <= header.value
    ensures r.Some? ==> r.value <= header.value[|BearerPrefix|..]
  {
    if header.None? || !(BearerPrefix <= header.value) then None
    else
      BeforeSplits(header.value[|BearerPrefix|..], BearerPrefix);
      Some(Before(header.value[|BearerPrefix|..], BearerPrefix))
  }

  /** A token after the prefix that does not itself contain `Bearer ` is
      passed on whole. */
  lemma BearerTokenWhole(token: string)
    requires forall i :: 0 <= i <= |token| ==> !(BearerPrefix <= token[i..])
    ensures BearerToken(Some(BearerPrefix + token)) == Some(token)
  {
    var h := BearerPrefix + token;
    assert BearerPrefix <= h;
    assert h[|BearerPrefix|..] == token;
    BeforeSplits(token, BearerPrefix);
  }

  /** The identity provider's check of a token, passed in: the user id, or
      `None` when the token is rejected. */
  type Verifier = string -> Option<string>

  /** `verifyAuthToken`: the authenticated user id, if any. */
  function AuthUid(header: Option<string>, verify: Verifier): (r: Option<string>)
    ensures BearerToken(header).None? ==> r.None?
    ensures BearerToken(header).Some? ==> r == verify(BearerToken(header).value)
  {
    match BearerToken(header)
    case None => None
    case Some(token) => verify(token)
  }

  /** A body that passed `CreateCommentSchema`. */
  datatype CreateRequest = CreateRequest(postId: string, content: string, parentId: Option<string>)

  /** The issue a string field raises when its value is not a string. */
  function NotAString(v: JsValue): string {
    if v.JUndefined? then "Required" else "Expected string, received " + TypeName(v)
  }

  function PostIdIssue(v: JsValue): Option<string> {
    if !v.JStr? then Some(NotAString(v))
    else if |v.s| < 1 then Some("Post ID is required")
    else None
  }

  function ContentIssue(v: JsValue): Option<string> {
    if !v.JStr? then Some(NotAString(v))
    else if |v.s| < 1 then Some("Comment content is required")
    else if |v.s| > 1000 then Some("Comment is too long")
    else None
  }

  function ParentIdIssue(v: JsValue): Option<string> {
    if v.JUndefined? || v.JStr? then None else Some(NotAString(v))
  }

  /** `CreateCommentSchema.parse(body)`: the message of the first issue, the
      fields being checked in the order the schema declares them. */
  function ParseCreate(body: JsValue): (r: Result<CreateRequest, string>)
    ensures r.Ok? <==> body.JObj? && Get(body, "postId").JStr? && Get(body, "postId").s != []
                       && Get(body, "content").JStr? && 1 <= |Get(body, "content").s| <= 1000
                       && (Get(body, "parentId").JUndefined? || Get(body, "parentId").JStr?)
    ensures r.Ok? ==> r.value.postId == Get(body, "postId").s && r.value.content == Get(body, "content").s
  {
    if !body.JObj? then
      Err(if body.JUndefined? then "Required" else "Expected object, received " + TypeName(body))
    else
      var p := Get(body, "postId");
      var c := Get(body, "content");
      var q := Get(body, "parentId");
      if PostIdIssue(p).Some? then Err(PostIdIssue(p).value)
      else if ContentIssue(c).Some? then Err(ContentIssue(c).value)
      else if ParentIdIssue(q).Some? then Err(ParentIdIssue(q).value)
      else Ok(CreateRequest(p.s, c.s, if q.JStr? then Some(q.s) else None))
  }

  /** An invalid post id is reported even when the content is invalid too. */
  lemma PostIdReportedFirst(content: JsValue)
    ensures ParseCreate(JObj(map["postId" := JStr(""), "content" := content])) == Err("Post ID is required")
  {
    var body := JObj(map["postId" := JStr(""), "content" := content]);
    assert Get(body, "postId") == JStr("");
  }

  /** Content of 1001 characters is too long. */
  lemma ContentTooLong(postId: string, content: string)
    requires postId != [] && |content| == 1001
    ensures ParseCreate(JObj(map["postId" := JStr(postId), "content" := JStr(content)])) == Err("Comment is too long")
  {
    var body := JObj(map["postId" := JStr(postId), "content" := JStr(content)]);
    assert Get(body, "postId") == JStr(postId);
    assert Get(body, "content") == JStr(content);
  }

  /** The stored data the handler reads: post ids, user documents, and the
      comments collection keyed by document id. */
  datatype Db = Db(posts: set<string>, users: map<string, JsValue>, comments: map<string, Comment>)

  datatype Answer = Created(comment: Comment) | Refused(status: int, error: string)

  /** `userData.displayName || userData.email || "Anonymous"`. */
  function UserName(user: JsValue): (r: JsValue)
    ensures Truthy(Get(user, "displayName")) ==> r == Get(user, "displayName")
    ensures !Truthy(Get(user, "displayName")) && Truthy(Get(user, "email")) ==> r == Get(user, "email")
    ensures !Truthy(Get(user, "displayName")) && !Truthy(Get(user, "email")) ==> r == JStr("Anonymous")
  {
    OrElse(OrElse(Get(user, "displayName"), Get(user, "email")), JStr("Anonymous"))
  }

  /** The comment `POST` stores under the id the collection assigns. */
  function NewComment(id: string, uid: string, user: JsValue, req: CreateRequest, now: int): (c: Comment)
    ensures c.id == id && c.postId == req.postId && c.userId == uid && c.content == req.content
    ensures c.createdAt == now && c.isApproved
    ensures c.parentId.Some? <==> req.parentId.Some? && req.parentId.value != ""
    ensures c.parentId.Some? ==> c.parentId == req.parentId
    ensures Truthy(Get(user, "displayName")) ==> c.userName == Get(user, "displayName")
    ensures !Truthy(Get(user, "displayName")) && Truthy(Get(user, "email")) ==> c.userName == Get(user, "email")
    ensures !Truthy(Get(user, "displayName")) && !Truthy(Get(user, "email")) ==> c.userName == JStr("Anonymous")
    ensures c.userEmail == OrElse(Get(user, "email"), JStr(""))
  {
    Comment(id, req.postId, uid, UserName(user), OrElse(Get(user, "email"), JStr("")), req.content, now, true,
            if req.parentId.Some? && req.parentId.value != "" then req.parentId else None)
  }

  /** Every check `POST` makes before it stores a comment. */
  predicate Accepted(uid: Option<string>, body: Option<JsValue>, db: Db) {
    && uid.Some? && body.Some? && ParseCreate(body.value).Ok?
    && ParseCreate(body.value).value.postId in db.posts
    && uid.value in db.users
    && Truthy(Get(db.users[uid.value], "isActive"))
    && (ParseCreate(body.value).value.parentId.Some? && ParseCreate(body.value).value.parentId.value != ""
        ==> ParseCreate(body.value).value.parentId.value in db.comments)
  }

  /** The answer of `POST`. `body` is `None` when the request body is not
      JSON; `now` is the clock and `freshId` the id the collection assigns.
      The checks run in order: 401, then 400 (or 500 for a body that is not
      JSON), then 404 for the post, 404 for the user, 403, and 404 for the
      parent; a comment is created exactly when all of them pass. */
  function PostAnswer(header: Option<string>, verify: Verifier, body: Option<JsValue>, db: Db,
                      now: int, freshId: string): (a: Answer)
    ensures AuthUid(header, verify).None? ==> a == Refused(401, "Authentication required")
    ensures AuthUid(header, verify).Some? && body.None? ==> a == Refused(500, "Failed to create comment")
    ensures AuthUid(header, verify).Some? && body.Some? && ParseCreate(body.value).Err? ==>
              a == Refused(400, ParseCreate(body.value).error)
    ensures AuthUid(header, verify).Some? && body.Some? && ParseCreate(body.value).Ok? ==>
              var req := ParseCreate(body.value).value;
              req.postId !in db.posts ==> a == Refused(404, "Post not found")
    ensures AuthUid(header, verify).Some? && body.Some? && ParseCreate(body.value).Ok? ==>
              var uid, req := AuthUid(header, verify).value, ParseCreate(body.value).value;
              req.postId in db.posts && uid !in db.users ==> a == Refused(404, "User not found")
    ensures AuthUid(header, verify).Some? && body.Some? && ParseCreate(body.value).Ok? ==>
              var uid, req := AuthUid(header, verify).value, ParseCreate(body.value).value;
              req.postId in db.posts && uid in db.users && !Truthy(Get(db.users[uid], "isActive")) ==>
                a == Refused(403, "Account is inactive")
    ensures AuthUid(header, verify).Some? && body.Some? && ParseCreate(body.value).Ok? ==>
              var uid, req := AuthUid(header, verify).value, ParseCreate(body.value).value;
              req.postId in db.posts && uid in db.users && Truthy(Get(db.users[uid], "isActive"))
              && req.parentId.Some? && req.parentId.value != "" && req.parentId.value !in db.comments ==>
                a == Refused(404, "Parent comment not found")
    ensures a.Created? <==> Accepted(AuthUid(header, verify), body, db)
    ensures a.Refused? ==> a.status in {400, 401, 403, 404, 500}
    ensures a.Created? ==> a.comment == NewComment(freshId, AuthUid(header, verify).value,
                                                   db.users[AuthUid(header, verify).value],
                                                   ParseCreate(body.value).value, now)
  {
    match AuthUid(header, verify)
    case None => Refused(401, "Authentication required")
    case Some(uid) =>
      if body.None? then Refused(500, "Failed to create comment")
      else match ParseCreate(body.value)
        case Err(msg) => Refused(400, msg)
        case Ok(req) =>
          if req.postId !in db.posts then Refused(404, "Post not found")
          else if uid !in db.users then Refused(404, "User not found")
          else if !Truthy(Get(db.users[uid], "isActive")) then Refused(403, "Account is inactive")
          else if req.parentId.Some? && req.parentId.value != "" && req.parentId.value !in db.comments then
            Refused(404, "Parent comment not found")
          else Created(NewComment(freshId, uid, db.users[uid], req, now))
  }

  /** The comments collection after `POST`: the new comment is added only
      when the answer is 201. */
  function CommentsAfter(db: Db, answer: Answer): (r: map<string, Comment>)
    ensures answer.Refused? ==> r == db.comments
    ensures answer.Created? ==> r == db.comments[answer.comment.id := answer.comment]
  {
    if answer.Created? then db.comments[answer.comment.id := answer.comment] else db.comments
  }

  /** A refused request leaves the collection as it was; a created comment
      adds exactly one document, keyed by the fresh id. */
  lemma PostWritesOnlyOnSuccess(header: Option<string>, verify: Verifier, body: Option<JsValue>, db: Db,
                                now: int, freshId: string)
    requires freshId !in db.comments
    ensures var a := PostAnswer(header, verify, body, db, now, freshId);
      a.Refused? ==> CommentsAfter(db, a) == db.comments
    ensures var a := PostAnswer(header, verify, body, db, now, freshId);
      a.Created? ==> a.comment.id == freshId && CommentsAfter(db, a).Keys == db.comments.Keys + {freshId}
    ensures var a := PostAnswer(header, verify, body, db, now, freshId);
      a.Created? ==> |CommentsAfter(db, a).Keys| == |db.comments.Keys| + 1
    ensures var a := PostAnswer(header, verify, body, db, now, freshId);
      a.Created? ==> forall k :: k in db.comments ==> CommentsAfter(db, a)[k] == db.comments[k]
  {
  }

  /** A reply may name a parent comment of another post. */
  lemma ParentMayBelongToAnotherPost(uid: string, verify: Verifier, db: Db, post: string, parent: string,
                                     now: int, freshId: string)
    requires verify("t") == Some(uid) && post != "" && post in db.posts && uid in db.users
    requires Get(db.users[uid], "isActive") == JBool(true)
    requires parent in db.comments && db.comments[parent].postId != post && parent != ""
    ensures PostAnswer(Some("Bearer t"), verify, Some(JObj(map["postId" := JStr(post), "content" := JStr("hi"),
                                                            "parentId" := JStr(parent)])), db, now, freshId).Created?
  {
    var body := JObj(map["postId" := JStr(post), "content" := JStr("hi"), "parentId" := JStr(parent)]);
    assert BearerPrefix <= "Bearer t";
    assert "Bearer t"[|BearerPrefix|..] == "t";
    assert Before("t", BearerPrefix) == "t";
    assert Get(body, "postId") == JStr(post);
    assert Get(body, "content") == JStr("hi");
    assert Get(body, "parentId") == JStr(parent);
    assert BearerToken(Some("Bearer t")) == Some("t");
    assert AuthUid(Some("Bearer t"), verify) == Some(uid);
    assert ParseCreate(body) == Ok(CreateRequest(post, "hi", Some(parent)));
  }

  /** The approved comments of one post, in snapshot order. */
  function Approved(snapshot: seq<Comment>, postId: string): (r: seq<Comment>)
    ensures forall c :: c in r ==> c.postId == postId && c.isApproved
  {
    if snapshot == [] then []
    else
      var c := snapshot[|snapshot| - 1];
      Approved(snapshot[..|snapshot| - 1], postId) + (if c.postId == postId && c.isApproved then [c] else [])
  }

  /** Ascending by creation time, as a descending sort on its negation. */
  function Older(c: Comment): int { -c.createdAt }

  /** `GET`: `postId` is the query parameter and `snapshot` the collection in
      the order the store returns it. */
  function GetComments(postId: Option<string>, snapshot: seq<Comment>): (r: Result<seq<Comment>, string>)
    ensures r.Err? <==> postId.None? || postId.value == ""
    ensures r.Err? ==> r.error == "Post ID is required"
    ensures r.Ok? ==> forall i, j :: 0 <= i < j < |r.value| ==> r.value[i].createdAt <= r.value[j].createdAt
  {
    if postId.None? || postId.value == "" then Err("Post ID is required")
    else Ok(SortDesc(Approved(snapshot, postId.value), Older))
  }

  lemma {:induction false} ApprovedMember(snapshot: seq<Comment>, postId: string, c: Comment)
    ensures c in Approved(snapshot, postId) <==> c in snapshot && c.postId == postId && c.isApproved
  {
    if snapshot != [] {
      var init := snapshot[..|snapshot| - 1];
      ApprovedMember(init, postId, c);
      assert snapshot == init + [snapshot[|snapshot| - 1]];
    }
  }

  /** `GET` returns exactly the approved comments of the post, each as often
      as the snapshot holds it, and comments created at the same time keep
      the snapshot's order. */
  lemma GetCommentsContents(postId: string, snapshot: seq<Comment>, c: Comment, t: int)
    requires postId != ""
    ensures GetComments(Some(postId), snapshot).Ok?
    ensures var r := GetComments(Some(postId), snapshot).value;
      && multiset(r) == multiset(Approved(snapshot, postId))
      && (c in r <==> c in snapshot && c.postId == postId && c.isApproved)
      && WithKey(r, Older, t) == WithKey(Approved(snapshot, postId), Older, t)
  {
    SortDescPerm(Approved(snapshot, postId), Older);
    ApprovedMember(snapshot, postId, c);
    var r := GetComments(Some(postId), snapshot).value;
    assert c in r <==> c in multiset(r);
    SortDescStable(Approved(snapshot, postId), Older, t);
  }
}
