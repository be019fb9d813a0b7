/** `prepare_html` inside `generate_pdfs`: the external stylesheet link is deleted
    and the stylesheet text is inlined in front of every closing head tag, both with
    `str.replace`. */
module HtmlEmbed {
  import opened Strings

  const StylesheetLink: string := "<link rel=\"stylesheet\" href=\"/resume/style.css\">"
  const HeadClose: string := "</head>"

  function StyleTag(css: string): string {
    "<style>" + css + "</style>"
  }

  /** The page cut at every stylesheet link and glued back without it, then cut at
      every closing head tag and glued back with the style block in front of each. */
  function Embedded(html: string, css: string): string {
    JoinWith(SplitOn(JoinWith(SplitOn(html, StylesheetLink), ""), HeadClose),
             StyleTag(css) + HeadClose)
  }

  /** The HTML written to disk for one document: every occurrence of the link, taken
      left to right, is deleted; then every closing head tag of the result gets the
      style block in front of it. */
  function PrepareHtml(html: string, css: string): (r: string)
    ensures r == Embedded(html, css)
  {
    var unlinked := ReplaceAll(html, StylesheetLink, "");
    ReplaceIsSplitJoin(html, StylesheetLink, "");
    ReplaceIsSplitJoin(unlinked, HeadClose, StyleTag(css) + HeadClose);
    ReplaceAll(unlinked, HeadClose, StyleTag(css) + HeadClose)
  }

  /** A page with neither a stylesheet link nor a closing head tag is written as is. */
  lemma PrepareHtmlUntouched(html: string, css: string)
    requires !Contains(html, StylesheetLink) && !Contains(html, HeadClose)
    ensures PrepareHtml(html, css) == html
  {
    ReplaceAbsent(html, StylesheetLink, "");
    ReplaceAbsent(html, HeadClose, StyleTag(css) + HeadClose);
  }
}
