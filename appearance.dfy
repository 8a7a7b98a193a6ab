/** The appearance admin page: how the form is filled from the stored
    `general` and `footer` settings documents, what saving writes to each,
    the social-link editor and the posts-per-page input. */
module Appearance {
  import opened Wrappers
  import opened JsText
  import opened Content

  datatype Platform = LinkedIn | Twitter | Instagram

  datatype SocialLink = SocialLink(platform: Platform, url: string, enabled: bool)

  /** The `settings/footer` document, or a merge payload for it; `None` is
      an absent field. */
  datatype FooterDoc = FooterDoc(
    footerText: Option<string>,
    socialLinks: Option<seq<SocialLink>>,
    showSocialLinks: Option<bool>,
    themeColor: Option<string>,
    accentColor: Option<string>,
    blogDescription: Option<string>,
    showBlogDescription: Option<bool>,
    navigationStyle: Option<string>,
    postsPerPage: Option<int>,
    showPostImages: Option<bool>)

  const EmptyFooter := FooterDoc(None, None, None, None, None, None, None, None, None, None)

  /** The form's state. */
  datatype AppearanceForm = AppearanceForm(
    commentsEnabled: bool,
    footerText: string,
    showSocialLinks: bool,
    socialLinks: seq<SocialLink>,
    themeColor: string,
    accentColor: string,
    blogDescription: string,
    showBlogDescription: bool,
    navigationStyle: string,
    postsPerPage: int,
    showPostImages: bool)

  const DefaultFooterText := "© 2024 Blog. All rights reserved."
  const DefaultThemeColor := "#3B82F6"
  const DefaultAccentColor := "#8B5CF6"
  const DefaultNavigationStyle := "detailed"
  const DefaultPostsPerPage := 12

  const DefaultSocialLinks := [SocialLink(LinkedIn, "", false), SocialLink(Twitter, "", false),
                               SocialLink(Instagram, "", false)]

  /** The form before anything is loaded. */
  const InitialForm := AppearanceForm(true, DefaultFooterText, true, DefaultSocialLinks, DefaultThemeColor,
                                      DefaultAccentColor, "", true, DefaultNavigationStyle, DefaultPostsPerPage, true)

  /** `stored || fallback` for a number: 0 falls back too. */
  function NumberOr(stored: Option<int>, fallback: int): (r: int)
    ensures stored.Some? && stored.value != 0 ==> r == stored.value
    ensures stored.None? || stored.value == 0 ==> r == fallback
  {
    if stored.Some? && stored.value != 0 then stored.value else fallback
  }

  /** `loadSettings`: every field is set from the stored documents; the
      social links only when stored. */
  function Load(general: Option<GeneralDoc>, footer: Option<FooterDoc>): (f: AppearanceForm)
    ensures f.commentsEnabled == general.GetOr(EmptyGeneral).commentsEnabled.GetOr(true)
    ensures var d := footer.GetOr(EmptyFooter);
      && f.showSocialLinks == d.showSocialLinks.GetOr(true)
      && f.showBlogDescription == d.showBlogDescription.GetOr(true)
      && f.showPostImages == d.showPostImages.GetOr(true)
    ensures var d := footer.GetOr(EmptyFooter);
      && f.footerText == TextOr(d.footerText, DefaultFooterText)
      && f.themeColor == TextOr(d.themeColor, DefaultThemeColor)
      && f.accentColor == TextOr(d.accentColor, DefaultAccentColor)
      && f.blogDescription == TextOr(d.blogDescription, "")
      && f.navigationStyle == TextOr(d.navigationStyle, DefaultNavigationStyle)
      && f.postsPerPage == NumberOr(d.postsPerPage, DefaultPostsPerPage)
    ensures f.socialLinks == footer.GetOr(EmptyFooter).socialLinks.GetOr(DefaultSocialLinks)
  {
    var g := general.GetOr(EmptyGeneral);
    var d := footer.GetOr(EmptyFooter);
    AppearanceForm(
      g.commentsEnabled.GetOr(true),
      TextOr(d.footerText, DefaultFooterText),
      d.showSocialLinks.GetOr(true),
      d.socialLinks.GetOr(DefaultSocialLinks),
      TextOr(d.themeColor, DefaultThemeColor),
      TextOr(d.accentColor, DefaultAccentColor),
      TextOr(d.blogDescription, ""),
      d.showBlogDescription.GetOr(true),
      TextOr(d.navigationStyle, DefaultNavigationStyle),
      NumberOr(d.postsPerPage, DefaultPostsPerPage),
      d.showPostImages.GetOr(true))
  }

  /** With no stored documents the form keeps its initial values. */
  lemma NothingStoredKeepsInitial()
    ensures Load(None, None) == InitialForm
  {
  }

  /** A stored `false` is kept where `||` would have replaced it, and a
      stored empty text or 0 falls back where `??` would have kept it. */
  lemma StoredFalsyValues(general: GeneralDoc, footer: FooterDoc)
    requires general.commentsEnabled == Some(false) && footer.showSocialLinks == Some(false)
    requires footer.footerText == Some("") && footer.postsPerPage == Some(0)
    ensures !Load(Some(general), Some(footer)).commentsEnabled
    ensures !Load(Some(general), Some(footer)).showSocialLinks
    ensures Load(Some(general), Some(footer)).footerText == DefaultFooterText
    ensures Load(Some(general), Some(footer)).postsPerPage == 12
  {
  }

  /** The two writes of `onSave`. */
  datatype SaveWrites = SaveWrites(general: GeneralDoc, footer: FooterDoc)

  /** `onSave`: `commentsEnabled` goes only to the general document, the ten
      other fields only to the footer document. */
  function Save(f: AppearanceForm): (w: SaveWrites)
    ensures w.general == EmptyGeneral.(commentsEnabled := Some(f.commentsEnabled))
    ensures w.footer.footerText == Some(f.footerText) && w.footer.socialLinks == Some(f.socialLinks)
    ensures w.footer.showSocialLinks == Some(f.showSocialLinks) && w.footer.themeColor == Some(f.themeColor)
    ensures w.footer.accentColor == Some(f.accentColor) && w.footer.blogDescription == Some(f.blogDescription)
    ensures w.footer.showBlogDescription == Some(f.showBlogDescription)
    ensures w.footer.navigationStyle == Some(f.navigationStyle) && w.footer.postsPerPage == Some(f.postsPerPage)
    ensures w.footer.showPostImages == Some(f.showPostImages)
  {
    SaveWrites(
      EmptyGeneral.(commentsEnabled := Some(f.commentsEnabled)),
      FooterDoc(Some(f.footerText), Some(f.socialLinks), Some(f.showSocialLinks), Some(f.themeColor),
                Some(f.accentColor), Some(f.blogDescription), Some(f.showBlogDescription),
                Some(f.navigationStyle), Some(f.postsPerPage), Some(f.showPostImages)))
  }

  /** `setDoc(footerRef, payload, { merge: true })`: written fields replace
      the stored ones (an array as a whole), the rest is kept. */
  function MergeFooter(stored: Option<FooterDoc>, w: FooterDoc): (r: FooterDoc)
    ensures r.footerText == (if w.footerText.Some? then w.footerText else stored.GetOr(EmptyFooter).footerText)
    ensures r.socialLinks == (if w.socialLinks.Some? then w.socialLinks else stored.GetOr(EmptyFooter).socialLinks)
    ensures r.showSocialLinks == (if w.showSocialLinks.Some? then w.showSocialLinks else stored.GetOr(EmptyFooter).showSocialLinks)
    ensures r.themeColor == (if w.themeColor.Some? then w.themeColor else stored.GetOr(EmptyFooter).themeColor)
    ensures r.accentColor == (if w.accentColor.Some? then w.accentColor else stored.GetOr(EmptyFooter).accentColor)
    ensures r.blogDescription == (if w.blogDescription.Some? then w.blogDescription else stored.GetOr(EmptyFooter).blogDescription)
    ensures r.showBlogDescription == (if w.showBlogDescription.Some? then w.showBlogDescription else stored.GetOr(EmptyFooter).showBlogDescription)
    ensures r.navigationStyle == (if w.navigationStyle.Some? then w.navigationStyle else stored.GetOr(EmptyFooter).navigationStyle)
    ensures r.postsPerPage == (if w.postsPerPage.Some? then w.postsPerPage else stored.GetOr(EmptyFooter).postsPerPage)
    ensures r.showPostImages == (if w.showPostImages.Some? then w.showPostImages else stored.GetOr(EmptyFooter).showPostImages)
  {
    var d := stored.GetOr(EmptyFooter);
    FooterDoc(
      Over(w.footerText, d.footerText), Over(w.socialLinks, d.socialLinks),
      Over(w.showSocialLinks, d.showSocialLinks), Over(w.themeColor, d.themeColor),
      Over(w.accentColor, d.accentColor), Over(w.blogDescription, d.blogDescription),
      Over(w.showBlogDescription, d.showBlogDescription), Over(w.navigationStyle, d.navigationStyle),
      Over(w.postsPerPage, d.postsPerPage), Over(w.showPostImages, d.showPostImages))
  }

  /** What a load shows for a saved form: the form itself, except that an
      empty text or a zero posts-per-page shows its fallback. */
  function Reloaded(f: AppearanceForm): AppearanceForm {
    f.(footerText := TextOr(Some(f.footerText), DefaultFooterText),
       themeColor := TextOr(Some(f.themeColor), DefaultThemeColor),
       accentColor := TextOr(Some(f.accentColor), DefaultAccentColor),
       navigationStyle := TextOr(Some(f.navigationStyle), DefaultNavigationStyle),
       postsPerPage := NumberOr(Some(f.postsPerPage), DefaultPostsPerPage))
  }

  /** Loading after saving, whatever was stored before, gives the form back
      up to the fallbacks of `||`. */
  lemma SaveThenLoad(f: AppearanceForm, general: Option<GeneralDoc>, footer: Option<FooterDoc>)
    ensures var w := Save(f);
      Load(Some(MergeGeneral(general, w.general)), Some(MergeFooter(footer, w.footer))) == Reloaded(f)
  {
  }

  /** A form with no empty text and a non-zero posts-per-page survives a
      save and a load exactly. */
  lemma ReloadedKeepsOrdinaryForms(f: AppearanceForm)
    requires f.footerText != "" && f.themeColor != "" && f.accentColor != "" && f.navigationStyle != ""
    requires f.postsPerPage != 0
    ensures Reloaded(f) == f
  {
  }

  /** The edits the page makes to a social link. */
  datatype LinkEdit = SetEnabled(enabled: bool) | SetUrl(url: string)

  function Edited(link: SocialLink, edit: LinkEdit): (r: SocialLink)
    ensures r.platform == link.platform
    ensures edit.SetEnabled? ==> r.enabled == edit.enabled && r.url == link.url
    ensures edit.SetUrl? ==> r.url == edit.url && r.enabled == link.enabled
  {
    match edit
    case SetEnabled(b) => link.(enabled := b)
    case SetUrl(u) => link.(url := u)
  }

  /** `updateSocialLink`: only the entry at `index` changes, and only the
      edited field of it. */
  function UpdateSocialLink(links: seq<SocialLink>, index: int, edit: LinkEdit): (r: seq<SocialLink>)
    ensures |r| == |links|
    ensures forall i :: 0 <= i < |links| && i != index ==> r[i] == links[i]
    ensures 0 <= index < |links| ==> r[index] == Edited(links[index], edit)
  {
    seq(|links|, i requires 0 <= i < |links| => if i == index then Edited(links[i], edit) else links[i])
  }

  /** An index outside the list leaves it unchanged. */
  lemma UpdateOutsideUnchanged(links: seq<SocialLink>, index: int, edit: LinkEdit)
    requires index < 0 || index >= |links|
    ensures UpdateSocialLink(links, index, edit) == links
  {
  }

  /** `parseInt(value) || 12`. */
  function ParsePostsPerPage(text: string): (r: int)
    ensures r != 0
    ensures ParseInt(text).None? ==> r == DefaultPostsPerPage
    ensures ParseInt(text).Some? && ParseInt(text).value != 0 ==> r == ParseInt(text).value
  {
    match ParseInt(text)
    case None => DefaultPostsPerPage
    case Some(n) => if n == 0 then DefaultPostsPerPage else n
  }

  /** The 6 to 50 bounds of the input are not enforced: any non-zero integer
      typed is kept. */
  lemma PostsPerPageUnbounded(n: int)
    requires n != 0
    ensures ParsePostsPerPage(IntToString(n)) == n
  {
    ParseIntOfIntToString(n);
  }
}
