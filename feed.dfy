/** The RSS feed route: one `<item>` per published post (the elements
    `title`, `link`, `description`, `guid` and `pubDate` of the "Elements of
    <item>" section of the RSS 2.0 specification), inside one channel. */
module Feed {
  import opened Wrappers
  import opened JsText
  import opened Json
  import FirestoreRest

  const DefaultBaseUrl := "http://localhost:3000"
  const ChannelFallbackTitle := "AI Blog"

  /** The largest time value a JavaScript `Date` accepts, in milliseconds. */
  const MaxTime := 8640000000000000

  /** The values of one item's elements, as inserted into the template. */
  datatype Item = Item(title: string, link: string, description: string, guid: string, pubDate: string)

  /** `toUTCString` of a valid time value: locale-free but outside this
      model, so passed in. */
  type UtcFormatter = int -> string

  function Field(rec: FirestoreRest.Record, k: string): (r: JsValue)
    ensures k !in rec ==> r == JUndefined
  {
    if k in rec then rec[k] else JUndefined
  }

  /** `new Date(t).toUTCString()`: NaN and values beyond the `Date` range
      give "Invalid Date". */
  function DateText(t: JsValue, toUtc: UtcFormatter): (r: string)
    ensures t.JNum? && -MaxTime <= t.n <= MaxTime ==> r == toUtc(t.n)
    ensures t.JNaN? ==> r == "Invalid Date"
  {
    if t.JNum? && -MaxTime <= t.n <= MaxTime then toUtc(t.n) else "Invalid Date"
  }

  /** The item of one post record; `now` is the clock reading used when the
      post has no `createdAt`. */
  function ItemOf(baseUrl: string, rec: FirestoreRest.Record, now: int, toUtc: UtcFormatter): (i: Item)
    ensures i.link == i.guid == baseUrl + "/blog/" + ToString(Field(rec, "slug"))
    ensures i.title == ToString(Field(rec, "title"))
    ensures !Truthy(Field(rec, "metaDescription")) ==> i.description == ""
    ensures Field(rec, "metaDescription").JStr? ==> i.description == Field(rec, "metaDescription").s
    ensures !Truthy(Field(rec, "createdAt")) && -MaxTime <= now <= MaxTime ==> i.pubDate == toUtc(now)
  {
    var url := baseUrl + "/blog/" + ToString(Field(rec, "slug"));
    Item(ToString(Field(rec, "title")), url, ToString(OrElse(Field(rec, "metaDescription"), JStr(""))), url,
         DateText(ToNumber(OrElse(Field(rec, "createdAt"), JNum(now))), toUtc))
  }

  // The fixed text between the values of an item, each closing text
  // written as its first character and the rest.
  const ItemOpen := "\n      <item>\n        <title><![CDATA["
  const TitleClose := "]" + "]></title>\n        <link>"
  const LinkClose := "<" + "/link>\n        <description><![CDATA["
  const DescriptionClose := "]" + "]></description>\n        <guid isPermaLink=\"true\">"
  const GuidClose := "<" + "/guid>\n        <pubDate>"
  const ItemClose := "<" + "/pubDate>\n      </item>\n    "

  /** The text of one item. */
  function ItemXml(i: Item): string {
    ItemOpen + (i.title + (TitleClose + (i.link + (LinkClose + (i.description + (DescriptionClose
      + (i.guid + (GuidClose + (i.pubDate + ItemClose)))))))))
  }

  /** The item texts joined with newlines. */
  function JoinLines(xs: seq<string>): string {
    if xs == [] then ""
    else if |xs| == 1 then xs[0]
    else xs[0] + ("\n" + JoinLines(xs[1..]))
  }

  /** The items of a list of records, one each, in order. */
  function ItemsOf(baseUrl: string, recs: seq<FirestoreRest.Record>, now: int, toUtc: UtcFormatter): (r: seq<Item>)
    ensures |r| == |recs|
    ensures forall k :: 0 <= k < |recs| ==> r[k] == ItemOf(baseUrl, recs[k], now, toUtc)
  {
    seq(|recs|, k requires 0 <= k < |recs| => ItemOf(baseUrl, recs[k], now, toUtc))
  }

  function Xmls(items: seq<Item>): (r: seq<string>)
    ensures |r| == |items|
    ensures forall k :: 0 <= k < |items| ==> r[k] == ItemXml(items[k])
  {
    seq(|items|, k requires 0 <= k < |items| => ItemXml(items[k]))
  }

  /** `process.env.NEXT_PUBLIC_SITE_URL || "http://localhost:3000"`. */
  function BaseUrl(siteUrl: Option<string>): (r: string)
    ensures siteUrl.None? || siteUrl.value == "" ==> r == DefaultBaseUrl
    ensures siteUrl.Some? && siteUrl.value != "" ==> r == siteUrl.value
  {
    if siteUrl.Some? && siteUrl.value != "" then siteUrl.value else DefaultBaseUrl
  }

  /** The channel title: the host name of the site URL when one is set,
      else "AI Blog". `hostname` is `new URL(u).hostname`, `None` when the
      URL does not parse (the route then throws). */
  function ChannelTitle(siteUrl: Option<string>, hostname: string -> Option<string>): (r: Option<string>)
    ensures siteUrl.None? || siteUrl.value == "" ==> r == Some(ChannelFallbackTitle)
    ensures siteUrl.Some? && siteUrl.value != "" ==> r == hostname(siteUrl.value)
  {
    if siteUrl.Some? && siteUrl.value != "" then hostname(siteUrl.value) else Some(ChannelFallbackTitle)
  }

  // The fixed text around the channel title and link.
  const XmlDeclaration := "<?xml version=\"1.0\" encoding=\"UTF-8\"?>"
  const RssOpen := "\n  <rss version=\"2.0\">\n    <channel>"
  const TitleOpen := "\n      <title>"
  const TitleToLink := "</title>\n      <link>"
  const LinkClosing := "</link>"
  const ChannelDescription := "\n      <description>AI-generated blog feed</description>\n      "

  function ChannelHead(title: string, baseUrl: string): string {
    XmlDeclaration + RssOpen + TitleOpen + title + TitleToLink + baseUrl + LinkClosing + ChannelDescription
  }

  const ChannelTail := "\n    </channel>\n  </rss>"

  /** The whole document around the item text `body`. */
  function Document(title: string, baseUrl: string, body: string): string {
    ChannelHead(title, baseUrl) + body + ChannelTail
  }

  /** The route: `None` when it throws (no project id, or a site URL that
      does not parse), else the document. `response` answers the fetch of
      the latest published posts. */
  function FeedXml(siteUrl: Option<string>, projectId: string, response: FirestoreRest.Response, now: int,
                   toUtc: UtcFormatter, hostname: string -> Option<string>): (r: Option<string>)
    ensures r.Some? <==> projectId != "" && ChannelTitle(siteUrl, hostname).Some?
    ensures r.Some? ==> r.value == Document(ChannelTitle(siteUrl, hostname).value, BaseUrl(siteUrl),
              JoinLines(Xmls(ItemsOf(BaseUrl(siteUrl), FirestoreRest.Published(projectId, response).value, now, toUtc))))
  {
    var baseUrl := BaseUrl(siteUrl);
    match FirestoreRest.Published(projectId, response)
    case Err(_) => None
    case Ok(posts) =>
      var items := JoinLines(Xmls(ItemsOf(baseUrl, posts, now, toUtc)));
      match ChannelTitle(siteUrl, hostname)
      case None => None
      case Some(title) => Some(Document(title, baseUrl, items))
  }

  // ---------------------------------------------------------------------
  // Reading items back

  /** Reads one value from the front of `s`: the text up to the first
      `stop`, which must begin the closing text `close`; gives the value and
      the text after `close`. */
  function ReadValue(s: string, stop: char, close: string): (r: Option<(string, string)>)
    ensures r.Some? ==> |r.value.1| <= |s| - |close|
  {
    var v := UpTo(s, stop);
    var after := s[|v|..];
    if close <= after then Some((v, after[|close|..])) else None
  }

  /** Reads one item from the front of `s`: its values and the text after
      it. A value ends at its first `]` (CDATA values) or `<` (the others). */
  function ParseItem(s: string): (r: Option<(Item, string)>)
    ensures r.Some? ==> |r.value.1| < |s|
  {
    if !(ItemOpen <= s) then None
    else match ReadValue(s[|ItemOpen|..], ']', TitleClose)
      case None => None
      case Some((t, s1)) => match ReadValue(s1, '<', LinkClose)
      case None => None
      case Some((l, s2)) => match ReadValue(s2, ']', DescriptionClose)
      case None => None
      case Some((d, s3)) => match ReadValue(s3, '<', GuidClose)
      case None => None
      case Some((g, s4)) => match ReadValue(s4, '<', ItemClose)
      case None => None
      case Some((p, s5)) => Some((Item(t, l, d, g, p), s5))
  }

  /** Reads newline-separated items until the text ends. */
  function ParseItems(s: string): Option<seq<Item>>
    decreases |s|
  {
    if s == "" then Some([])
    else match ParseItem(s)
      case None => None
      case Some((i, rest)) =>
        if rest == "" then Some([i])
        else if rest[0] != '\n' then None
        else match ParseItems(rest[1..])
          case None => None
          case Some(more) => if more == [] then None else Some([i] + more)
  }

  /** An item whose values hold no character that ends them. */
  predicate Plain(i: Item) {
    ']' !in i.title && ']' !in i.description && '<' !in i.link && '<' !in i.guid && '<' !in i.pubDate
  }

  /** One value followed by the fixed text that closes it is read back. */
  lemma ValueStep(x: string, stop: char, close: string, rest: string)
    requires stop !in x && close != [] && close[0] == stop
    ensures ReadValue(x + (close + rest), stop, close) == Some((x, rest))
  {
    UpToAppend(x, stop, close + rest);
    assert (x + (close + rest))[|x|..] == close + rest;
    assert (close + rest)[|close|..] == rest;
  }

  lemma AppendAssoc(a: string, b: string, c: string)
    ensures (a + b) + c == a + (b + c)
  {
  }

  /** The text after an item is appended to its last closing text. */
  lemma ItemXmlAppend(i: Item, rest: string)
    ensures ItemXml(i) + rest
            == ItemOpen + (i.title + (TitleClose + (i.link + (LinkClose + (i.description + (DescriptionClose
               + (i.guid + (GuidClose + (i.pubDate + (ItemClose + rest))))))))))
  {
    var x9 := ItemClose;
    var x8 := i.pubDate + x9;
    var x7 := GuidClose + x8;
    var x6 := i.guid + x7;
    var x5 := DescriptionClose + x6;
    var x4 := i.description + x5;
    var x3 := LinkClose + x4;
    var x2 := i.link + x3;
    var x1 := TitleClose + x2;
    var x0 := i.title + x1;
    AppendAssoc(ItemOpen, x0, rest);
    AppendAssoc(i.title, x1, rest);
    AppendAssoc(TitleClose, x2, rest);
    AppendAssoc(i.link, x3, rest);
    AppendAssoc(LinkClose, x4, rest);
    AppendAssoc(i.description, x5, rest);
    AppendAssoc(DescriptionClose, x6, rest);
    AppendAssoc(i.guid, x7, rest);
    AppendAssoc(GuidClose, x8, rest);
    AppendAssoc(i.pubDate, x9, rest);
  }

  /** Reading an item back gives its values and the text after it. */
  lemma ParseItemXml(i: Item, rest: string)
    requires Plain(i)
    ensures ParseItem(ItemXml(i) + rest) == Some((i, rest))
  {
    var r5 := i.pubDate + (ItemClose + rest);
    var r4 := i.guid + (GuidClose + r5);
    var r3 := i.description + (DescriptionClose + r4);
    var r2 := i.link + (LinkClose + r3);
    var r1 := i.title + (TitleClose + r2);
    ItemXmlAppend(i, rest);
    assert (ItemOpen + r1)[|ItemOpen|..] == r1;
    ValueStep(i.title, ']', TitleClose, r2);
    ValueStep(i.link, '<', LinkClose, r3);
    ValueStep(i.description, ']', DescriptionClose, r4);
    ValueStep(i.guid, '<', GuidClose, r5);
    ValueStep(i.pubDate, '<', ItemClose, rest);
  }

  /** A lone item reads as itself. */
  lemma ParseItemsSingle(items: seq<Item>)
    requires |items| == 1 && Plain(items[0])
    ensures ParseItems(JoinLines(Xmls(items))) == Some(items)
  {
    var i := items[0];
    assert JoinLines(Xmls(items)) == ItemXml(i);
    ParseItemXml(i, "");
    assert ItemXml(i) + "" == ItemXml(i);
    assert [i] == items;
  }

  /** An item followed by a newline and more items reads as one more item. */
  lemma ParseItemsCons(i: Item, tail: string, more: seq<Item>)
    requires Plain(i) && ParseItems(tail) == Some(more) && more != []
    ensures ParseItems(ItemXml(i) + ("\n" + tail)) == Some([i] + more)
  {
    var rest := "\n" + tail;
    ParseItemXml(i, rest);
    assert rest[1..] == tail;
  }

  /** The inductive step: the first item is read, then the others. */
  lemma ParseItemsStep(items: seq<Item>)
    requires |items| > 1 && Plain(items[0])
    requires ParseItems(JoinLines(Xmls(items[1..]))) == Some(items[1..])
    ensures ParseItems(JoinLines(Xmls(items))) == Some(items)
  {
    var xs := Xmls(items);
    var tail := JoinLines(xs[1..]);
    assert JoinLines(xs) == xs[0] + ("\n" + tail);
    assert xs[0] == ItemXml(items[0]);
    assert Xmls(items[1..]) == xs[1..];
    ParseItemsCons(items[0], tail, items[1..]);
    assert [items[0]] + items[1..] == items;
  }

  /** Exactly the items, in their order, are read back from the feed's
      item text. */
  lemma {:induction false} ParseItemsXml(items: seq<Item>)
    requires forall k :: 0 <= k < |items| ==> Plain(items[k])
    ensures ParseItems(JoinLines(Xmls(items))) == Some(items)
  {
    if items == [] {
      assert JoinLines(Xmls(items)) == "";
    } else if |items| == 1 {
      ParseItemsSingle(items);
    } else {
      ParseItemsXml(items[1..]);
      ParseItemsStep(items);
    }
  }

  /** The feed holds one item per published post, in the order of the
      fetch (newest first), whenever the items' values are plain. */
  lemma OneItemPerPost(siteUrl: Option<string>, projectId: string, rows: seq<FirestoreRest.Row>, now: int,
                       toUtc: UtcFormatter, hostname: string -> Option<string>)
    requires FeedXml(siteUrl, projectId, FirestoreRest.HttpOk(rows), now, toUtc, hostname).Some?
    requires var posts := FirestoreRest.Published(projectId, FirestoreRest.HttpOk(rows)).value;
      forall k :: 0 <= k < |posts| ==> Plain(ItemOf(BaseUrl(siteUrl), posts[k], now, toUtc))
    ensures var posts := FirestoreRest.Published(projectId, FirestoreRest.HttpOk(rows)).value;
      exists body :: FeedXml(siteUrl, projectId, FirestoreRest.HttpOk(rows), now, toUtc, hostname).value
                     == Document(ChannelTitle(siteUrl, hostname).value, BaseUrl(siteUrl), body)
                   && ParseItems(body) == Some(ItemsOf(BaseUrl(siteUrl), posts, now, toUtc))
                   && |posts| == FirestoreRest.CountWithDocument(rows)
  {
    var posts := FirestoreRest.Published(projectId, FirestoreRest.HttpOk(rows)).value;
    var items := ItemsOf(BaseUrl(siteUrl), posts, now, toUtc);
    ParseItemsXml(items);
    FirestoreRest.PublishedSpec(projectId, rows, 0);
  }

  /** CDATA values are not escaped: a title carrying `]]>` and the closing
      text after it pushes part of itself into the link, so two different
      items give the same text. */
  lemma UnescapedTitleIsAmbiguous(x: string, y: string, z: string, d: string, g: string, p: string)
    ensures var a := Item(x + TitleClose + y, z, d, g, p);
            var b := Item(x, y + TitleClose + z, d, g, p);
            a != b && ItemXml(a) == ItemXml(b)
  {
    var a := Item(x + TitleClose + y, z, d, g, p);
    var b := Item(x, y + TitleClose + z, d, g, p);
    assert a.title != b.title by { assert |a.title| > |b.title|; }
    var close := TitleClose;
    var tail := LinkClose + (d + (DescriptionClose + (g + (GuidClose + (p + ItemClose)))));
    assert ItemXml(a) == ItemOpen + ((x + close + y) + (close + (z + tail)));
    assert ItemXml(b) == ItemOpen + (x + (close + ((y + close + z) + tail)));
    AppendAssoc(x + close, y, close + (z + tail));
    AppendAssoc(x, close, y + (close + (z + tail)));
    AppendAssoc(y + close, z, tail);
    AppendAssoc(y, close, z + tail);
  }

  /** A post without `createdAt` (or with a falsy one) is dated now; one
      without `metaDescription` has an empty description. */
  lemma MissingFieldsFallBack(baseUrl: string, slug: string, title: string, now: int, toUtc: UtcFormatter)
    requires -MaxTime <= now <= MaxTime
    ensures var i := ItemOf(baseUrl, map["slug" := JStr(slug), "title" := JStr(title)], now, toUtc);
      i.pubDate == toUtc(now) && i.description == "" && i.title == title
      && i.link == baseUrl + "/blog/" + slug
  {
    var rec: FirestoreRest.Record := map["slug" := JStr(slug), "title" := JStr(title)];
    assert Field(rec, "createdAt") == JUndefined;
    assert Field(rec, "metaDescription") == JUndefined;
  }
}
