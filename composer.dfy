/**
 * The document composer of App (src/App.js, the first effect): the three code
 * buffers are placed, verbatim and in a fixed order, into one HTML document
 * that the sandboxed preview frame renders.
 */
module Composer {
  import opened Wrappers

  const Open: string := "<html><body>"
  const BodyToStyle: string := "</body><style>"
  const StyleToScript: string := "</style><script>"
  const Close: string := "</script></html>"

  /** Number of characters the template adds around the three buffers. */
  const WrapperLength: nat := |Open| + |BodyToStyle| + |StyleToScript| + |Close|

  /** Offset of the markup region. */
  const HtmlStart: nat := |Open|

  /** Offset of the style region in a document whose markup has length htmlLen. */
  function StyleStart(htmlLen: nat): nat { HtmlStart + htmlLen + |BodyToStyle| }

  /** Offset of the script region. */
  function ScriptStart(htmlLen: nat, cssLen: nat): nat { StyleStart(htmlLen) + cssLen + |StyleToScript| }

  /** The template literal that builds srcDoc. */
  function SrcDoc(html: string, css: string, js: string): (doc: string)
    ensures |doc| == |html| + |css| + |js| + WrapperLength
    ensures doc[..HtmlStart] == Open
    ensures doc[HtmlStart..HtmlStart + |html|] == html
    ensures doc[HtmlStart + |html|..StyleStart(|html|)] == BodyToStyle
    ensures doc[StyleStart(|html|)..StyleStart(|html|) + |css|] == css
    ensures doc[StyleStart(|html|) + |css|..ScriptStart(|html|, |css|)] == StyleToScript
    ensures doc[ScriptStart(|html|, |css|)..ScriptStart(|html|, |css|) + |js|] == js
    ensures doc[ScriptStart(|html|, |css|) + |js|..] == Close
  {
    Open + html + BodyToStyle + css + StyleToScript + js + Close
  }

  /**
   * Reads the three buffers back out of a document, given the lengths of its
   * markup and style regions; None when the wrapper text is not where the
   * template puts it.
   */
  function Regions(doc: string, htmlLen: nat, cssLen: nat): Option<(string, string, string)>
  {
    if |doc| < htmlLen + cssLen + WrapperLength then None
    else
      var styleStart := StyleStart(htmlLen);
      var scriptStart := ScriptStart(htmlLen, cssLen);
      var closeStart := |doc| - |Close|;
      if doc[..HtmlStart] == Open && doc[HtmlStart + htmlLen..styleStart] == BodyToStyle
         && doc[styleStart + cssLen..scriptStart] == StyleToScript && doc[closeStart..] == Close
      then Some((doc[HtmlStart..HtmlStart + htmlLen], doc[styleStart..styleStart + cssLen], doc[scriptStart..closeStart]))
      else None
  }

  /** Each buffer comes back out of its own region of the composed document. */
  lemma RegionsOfSrcDoc(html: string, css: string, js: string)
    ensures Regions(SrcDoc(html, css, js), |html|, |css|) == Some((html, css, js))
  {
  }

  /** Conversely, every document with the wrapper in place is the composition of its regions. */
  lemma SrcDocOfRegions(doc: string, htmlLen: nat, cssLen: nat)
    requires Regions(doc, htmlLen, cssLen).Some?
    ensures var (html, css, js) := Regions(doc, htmlLen, cssLen).value;
            SrcDoc(html, css, js) == doc
  {
    var (html, css, js) := Regions(doc, htmlLen, cssLen).value;
    var s, t, c := StyleStart(htmlLen), ScriptStart(htmlLen, cssLen), |doc| - |Close|;
    assert html == doc[HtmlStart..HtmlStart + htmlLen] && css == doc[s..s + cssLen] && js == doc[t..c];
    // glue the document back together from the left, one region at a time
    assert Open + html == doc[..HtmlStart + htmlLen];
    assert Open + html + BodyToStyle == doc[..s];
    assert Open + html + BodyToStyle + css == doc[..s + cssLen];
    assert Open + html + BodyToStyle + css + StyleToScript == doc[..t];
    assert Open + html + BodyToStyle + css + StyleToScript + js == doc[..c];
  }

  /**
   * The regions are fixed only by the buffer lengths: markup that contains the
   * closing body tag and opening style tag yields the same document as shorter
   * markup whose style buffer starts with that text.
   */
  lemma MarkupCanImitateStyle(x: string, y: string, css: string, js: string)
    ensures SrcDoc(x + BodyToStyle + y, css, js) == SrcDoc(x, y + BodyToStyle + css, js)
  {
  }
}
