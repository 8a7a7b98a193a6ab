/** The SEO admin page: the form filled from the stored `seo` settings
    document and the payload saving writes. */
module Seo {
  import opened Wrappers
  import opened JsText
  import opened Content

  /** The `settings/seo` document, or a merge payload for it; `None` is an
      absent field. */
  datatype SeoDoc = SeoDoc(
    metaTitle: Option<string>,
    metaDescription: Option<string>,
    metaKeywords: Option<string>,
    robotsTxt: Option<string>,
    googleAnalyticsId: Option<string>,
    googleSearchConsoleId: Option<string>,
    openGraphImage: Option<string>,
    twitterHandle: Option<string>,
    enableSitemap: Option<bool>,
    enableRobotsTxt: Option<bool>)

  const EmptySeo := SeoDoc(None, None, None, None, None, None, None, None, None, None)

  datatype SeoForm = SeoForm(
    metaTitle: string,
    metaDescription: string,
    metaKeywords: string,
    robotsTxt: string,
    googleAnalyticsId: string,
    googleSearchConsoleId: string,
    openGraphImage: string,
    twitterHandle: string,
    enableSitemap: bool,
    enableRobotsTxt: bool)

  const DefaultRobotsTxt := "User-agent: *\nAllow: /"

  const InitialForm := SeoForm("", "", "", DefaultRobotsTxt, "", "", "", "", true, true)

  /** `loadSettings`: with no stored document the form stays as it is;
      otherwise each text is the stored one or its fallback (`||`), and each
      switch the stored one or `true` (`??`). */
  function Load(current: SeoForm, stored: Option<SeoDoc>): (f: SeoForm)
    ensures stored.None? ==> f == current
    ensures stored.Some? ==> f.robotsTxt == TextOr(stored.value.robotsTxt, DefaultRobotsTxt)
    ensures stored.Some? ==> f.metaTitle == TextOr(stored.value.metaTitle, "")
    ensures stored.Some? ==> f.metaDescription == TextOr(stored.value.metaDescription, "")
    ensures stored.Some? ==> f.metaKeywords == TextOr(stored.value.metaKeywords, "")
    ensures stored.Some? ==> f.googleAnalyticsId == TextOr(stored.value.googleAnalyticsId, "")
    ensures stored.Some? ==> f.googleSearchConsoleId == TextOr(stored.value.googleSearchConsoleId, "")
    ensures stored.Some? ==> f.openGraphImage == TextOr(stored.value.openGraphImage, "")
    ensures stored.Some? ==> f.twitterHandle == TextOr(stored.value.twitterHandle, "")
    ensures stored.Some? ==> f.enableSitemap == stored.value.enableSitemap.GetOr(true)
    ensures stored.Some? ==> f.enableRobotsTxt == stored.value.enableRobotsTxt.GetOr(true)
  {
    match stored
    case None => current
    case Some(d) =>
      SeoForm(
        TextOr(d.metaTitle, ""), TextOr(d.metaDescription, ""), TextOr(d.metaKeywords, ""),
        TextOr(d.robotsTxt, DefaultRobotsTxt), TextOr(d.googleAnalyticsId, ""),
        TextOr(d.googleSearchConsoleId, ""), TextOr(d.openGraphImage, ""), TextOr(d.twitterHandle, ""),
        d.enableSitemap.GetOr(true), d.enableRobotsTxt.GetOr(true))
  }

  /** The initial values are the fallbacks: a missing document and an empty
      one load the same form. */
  lemma InitialIsFallback()
    ensures Load(InitialForm, None) == InitialForm
    ensures Load(InitialForm, Some(EmptySeo)) == InitialForm
  {
  }

  /** A stored `false` switch is kept. */
  lemma StoredFalseKept(current: SeoForm, d: SeoDoc)
    requires d.enableSitemap == Some(false)
    ensures !Load(current, Some(d)).enableSitemap
  {
  }

  /** `onSave`'s payload: all ten fields, always. */
  function Save(f: SeoForm): (w: SeoDoc)
    ensures w.metaTitle.Some? && w.metaDescription.Some? && w.metaKeywords.Some? && w.robotsTxt.Some?
    ensures w.googleAnalyticsId.Some? && w.googleSearchConsoleId.Some? && w.openGraphImage.Some?
    ensures w.twitterHandle.Some? && w.enableSitemap.Some? && w.enableRobotsTxt.Some?
    ensures w.robotsTxt == Some(f.robotsTxt) && w.enableSitemap == Some(f.enableSitemap)
  {
    SeoDoc(Some(f.metaTitle), Some(f.metaDescription), Some(f.metaKeywords), Some(f.robotsTxt),
           Some(f.googleAnalyticsId), Some(f.googleSearchConsoleId), Some(f.openGraphImage),
           Some(f.twitterHandle), Some(f.enableSitemap), Some(f.enableRobotsTxt))
  }

  /** `setDoc(ref, payload, { merge: true })`: each written field replaces
      the stored one, each unwritten field keeps it. */
  function MergeSeo(stored: Option<SeoDoc>, w: SeoDoc): (r: SeoDoc)
    ensures r.metaTitle == (if w.metaTitle.Some? then w.metaTitle else stored.GetOr(EmptySeo).metaTitle)
    ensures r.metaDescription == (if w.metaDescription.Some? then w.metaDescription else stored.GetOr(EmptySeo).metaDescription)
    ensures r.metaKeywords == (if w.metaKeywords.Some? then w.metaKeywords else stored.GetOr(EmptySeo).metaKeywords)
    ensures r.robotsTxt == (if w.robotsTxt.Some? then w.robotsTxt else stored.GetOr(EmptySeo).robotsTxt)
    ensures r.googleAnalyticsId == (if w.googleAnalyticsId.Some? then w.googleAnalyticsId else stored.GetOr(EmptySeo).googleAnalyticsId)
    ensures r.googleSearchConsoleId == (if w.googleSearchConsoleId.Some? then w.googleSearchConsoleId else stored.GetOr(EmptySeo).googleSearchConsoleId)
    ensures r.openGraphImage == (if w.openGraphImage.Some? then w.openGraphImage else stored.GetOr(EmptySeo).openGraphImage)
    ensures r.twitterHandle == (if w.twitterHandle.Some? then w.twitterHandle else stored.GetOr(EmptySeo).twitterHandle)
    ensures r.enableSitemap == (if w.enableSitemap.Some? then w.enableSitemap else stored.GetOr(EmptySeo).enableSitemap)
    ensures r.enableRobotsTxt == (if w.enableRobotsTxt.Some? then w.enableRobotsTxt else stored.GetOr(EmptySeo).enableRobotsTxt)
  {
    var d := stored.GetOr(EmptySeo);
    SeoDoc(
      Over(w.metaTitle, d.metaTitle), Over(w.metaDescription, d.metaDescription),
      Over(w.metaKeywords, d.metaKeywords), Over(w.robotsTxt, d.robotsTxt),
      Over(w.googleAnalyticsId, d.googleAnalyticsId), Over(w.googleSearchConsoleId, d.googleSearchConsoleId),
      Over(w.openGraphImage, d.openGraphImage), Over(w.twitterHandle, d.twitterHandle),
      Over(w.enableSitemap, d.enableSitemap), Over(w.enableRobotsTxt, d.enableRobotsTxt))
  }

  /** Loading after saving reproduces the form, whatever was stored before,
      except that an empty `robotsTxt` comes back as the default. */
  lemma SaveThenLoad(current: SeoForm, f: SeoForm, stored: Option<SeoDoc>)
    ensures Load(current, Some(MergeSeo(stored, Save(f))))
            == f.(robotsTxt := if f.robotsTxt == "" then DefaultRobotsTxt else f.robotsTxt)
  {
  }
}
