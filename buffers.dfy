/**
 * App's three code buffers (htmlCode, cssCode, jsCode) and the srcDoc state
 * that the composition effect keeps in step with them.  Each setter stands for
 * a state update followed by the re-render and the effect it triggers.
 */
module Buffers {
  import Composer
  import opened Wrappers

  class BufferStore {
    var htmlCode: string
    var cssCode: string
    var jsCode: string
    var srcDoc: string

    /**
     * srcDoc is the composition of the current buffers.  In App, srcDoc is
     * set by a passive effect, so the render that commits a buffer change
     * still shows the previous srcDoc; here that render and its effect are
     * one step.
     */
    ghost predicate Valid()
      reads this
    {
      srcDoc == Composer.SrcDoc(htmlCode, cssCode, jsCode)
    }

    /** Mount: every buffer starts empty and the effect composes them once. */
    constructor ()
      ensures Valid()
      ensures htmlCode == "" && cssCode == "" && jsCode == ""
    {
      htmlCode, cssCode, jsCode := "", "", "";
      srcDoc := Composer.SrcDoc("", "", "");
    }

    /** The effect body: setSrcDoc of the template. */
    method ComposeSrcDoc()
      modifies this`srcDoc
      ensures Valid()
    {
      srcDoc := Composer.SrcDoc(htmlCode, cssCode, jsCode);
    }

    /** setHtmlCode, as the markup editor's onChange calls it. */
    method SetHtmlCode(code: string)
      modifies this
      ensures Valid()
      ensures htmlCode == code && cssCode == old(cssCode) && jsCode == old(jsCode)
    {
      htmlCode := code;
      ComposeSrcDoc();
    }

    /** setCssCode, as the style editor's onChange calls it. */
    method SetCssCode(code: string)
      modifies this
      ensures Valid()
      ensures cssCode == code && htmlCode == old(htmlCode) && jsCode == old(jsCode)
    {
      cssCode := code;
      ComposeSrcDoc();
    }

    /** setJsCode, as the script editor's onChange calls it. */
    method SetJsCode(code: string)
      modifies this
      ensures Valid()
      ensures jsCode == code && htmlCode == old(htmlCode) && cssCode == old(cssCode)
    {
      jsCode := code;
      ComposeSrcDoc();
    }

    /**
     * The three setters called from one event handler (loading a pen,
     * resetting the code): React batches them into one render, so the effect
     * never sees only some of them applied.
     */
    method SetAll(html: string, css: string, js: string)
      modifies this
      ensures Valid()
      ensures htmlCode == html && cssCode == css && jsCode == js
    {
      htmlCode, cssCode, jsCode := html, css, js;
      ComposeSrcDoc();
    }
  }

  /**
   * Typing a heading into the markup editor of a freshly mounted App: the
   * preview document holds it in its body region and has empty style and
   * script regions.
   */
  method TypeHeading() returns (doc: string)
    ensures Composer.Regions(doc, 11, 0) == Some(("<h1>hi</h1>", "", ""))
    ensures doc[Composer.HtmlStart..Composer.HtmlStart + 11] == "<h1>hi</h1>"
  {
    var app := new BufferStore();
    app.SetHtmlCode("<h1>hi</h1>");
    doc := app.srcDoc;
    Composer.RegionsOfSrcDoc("<h1>hi</h1>", "", "");
  }
}
