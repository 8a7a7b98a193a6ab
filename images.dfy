/** Placeholder image URLs for the prompts of a post. */
module Images {
  import opened Wrappers
  import opened JsText

  const DefaultWidth := 1200
  const DefaultHeight := 630
  const MaxImages := 4
  const UrlPrefix := "https://placehold.co/"

  /** `encodeURIComponent`, passed in. */
  type Encoder = string -> string

  /** The text of the image at position `i`: the prompt, or `Image {i+1}`
      when the prompt is empty. */
  function ImageText(prompt: string, i: nat): (r: string)
    ensures prompt != "" ==> r == prompt
    ensures prompt == "" ==> r == "Image " + IntToString(i + 1)
  {
    if prompt != "" then prompt else "Image " + IntToString(i + 1)
  }

  function PlaceholderUrl(width: int, height: int, text: string, encode: Encoder): string {
    UrlPrefix + IntToString(width) + "x" + IntToString(height) + "?text=" + encode(text)
  }

  /** `generatePlaceholderImages`: one URL for each of the first four
      prompts, in order. */
  function PlaceholderImages(prompts: seq<string>, encode: Encoder, width: int := DefaultWidth,
                             height: int := DefaultHeight): (r: seq<string>)
    ensures |r| == if |prompts| < MaxImages then |prompts| else MaxImages
    ensures forall i :: 0 <= i < |r| ==> r[i] == PlaceholderUrl(width, height, ImageText(prompts[i], i), encode)
  {
    var n := if |prompts| < MaxImages then |prompts| else MaxImages;
    seq(n, i requires 0 <= i < n => PlaceholderUrl(width, height, ImageText(prompts[i], i), encode))
  }

  /** Reads `{width}x{height}` from the front of `s`. */
  function ReadSize(s: string): Option<(int, int)> {
    var afterX := s[|UpTo(s, 'x')|..];
    match ParseInt(s)
    case None => None
    case Some(w) =>
      if afterX == [] then None
      else match ParseInt(afterX[1..])
        case None => None
        case Some(h) => Some((w, h))
  }

  /** The text after the first `?text=`-led query of `url`. */
  function ReadText(url: string): Option<string> {
    var afterQ := url[|UpTo(url, '?')|..];
    if "?text=" <= afterQ then Some(afterQ[|"?text="|..]) else None
  }

  /** Reads the size and the encoded text back from a placeholder URL. */
  function ReadUrl(url: string): (r: Option<(int, int, string)>) {
    if !(UrlPrefix <= url) then None
    else match (ReadSize(url[|UrlPrefix|..]), ReadText(url))
      case (Some((w, h)), Some(text)) => Some((w, h, text))
      case _ => None
  }

  lemma ReadSizeOf(width: int, height: int, tail: string)
    requires tail == [] || !IsDigit(tail[0])
    ensures ReadSize(IntToString(width) + ("x" + (IntToString(height) + tail))) == Some((width, height))
  {
    var ws := IntToString(width);
    var after := "x" + (IntToString(height) + tail);
    NumberText(width);
    ParseIntPrefix(width, after);
    UpToAppend(ws, 'x', after);
    assert (ws + after)[|ws|..] == after;
    assert after[1..] == IntToString(height) + tail;
    ParseIntPrefix(height, tail);
  }

  lemma ReadTextOf(head: string, text: string)
    requires '?' !in head
    ensures ReadText(head + ("?text=" + text)) == Some(text)
  {
    UpToAppend(head, '?', "?text=" + text);
    assert (head + ("?text=" + text))[|head|..] == "?text=" + text;
    assert ("?text=" + text)[|"?text="|..] == text;
  }

  /** The URL is the prefix, the size, and the query with the text. */
  lemma UrlParts(width: int, height: int, text: string, encode: Encoder)
    ensures var url := PlaceholderUrl(width, height, text, encode);
      var size := IntToString(width) + ("x" + (IntToString(height) + ("?text=" + encode(text))));
      UrlPrefix <= url && url[|UrlPrefix|..] == size
    ensures var head := UrlPrefix + IntToString(width) + "x" + IntToString(height);
      PlaceholderUrl(width, height, text, encode) == head + ("?text=" + encode(text)) && '?' !in head
  {
    NumberText(width);
    NumberText(height);
    assert '?' !in UrlPrefix;
  }

  /** Every URL gives back its width, its height and exactly the encoded
      text. */
  lemma ReadPlaceholderUrl(width: int, height: int, text: string, encode: Encoder)
    ensures ReadUrl(PlaceholderUrl(width, height, text, encode)) == Some((width, height, encode(text)))
  {
    UrlParts(width, height, text, encode);
    ReadSizeOf(width, height, "?text=" + encode(text));
    ReadTextOf(UrlPrefix + IntToString(width) + "x" + IntToString(height), encode(text));
  }

  /** A rendered integer holds only a sign and digits. */
  lemma NumberText(i: int)
    ensures 'x' !in IntToString(i) && '?' !in IntToString(i)
  {
    var s := IntToString(i);
    var d := if i < 0 then NatToString(-i) else NatToString(i);
    assert i < 0 ==> s == "-" + d;
    assert forall k :: 0 <= k < |d| ==> IsDigit(d[k]);
  }

  /** The defaults are 1200 by 630; an empty second prompt is "Image 2". */
  lemma DefaultSize(first: string, encode: Encoder)
    ensures PlaceholderImages([first, ""], encode)
            == [PlaceholderUrl(1200, 630, ImageText(first, 0), encode), PlaceholderUrl(1200, 630, "Image 2", encode)]
  {
    var r := PlaceholderImages([first, ""], encode);
    assert [first, ""][1] == "";
    assert IntToString(2) == "2";
    assert ImageText("", 1) == "Image 2";
    assert r[1] == PlaceholderUrl(1200, 630, "Image 2", encode);
  }

  /** Extra prompts beyond the fourth are ignored. */
  lemma OnlyFirstFour(prompts: seq<string>, more: seq<string>, encode: Encoder, width: int, height: int)
    requires |prompts| >= MaxImages
    ensures PlaceholderImages(prompts + more, encode, width, height) == PlaceholderImages(prompts, encode, width, height)
  {
    assert forall i :: 0 <= i < MaxImages ==> (prompts + more)[i] == prompts[i];
  }
}
