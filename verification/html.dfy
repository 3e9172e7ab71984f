/**
  The pieces every generated page shares: the document head, the optional
  Google Analytics snippet, the footer, and concatenation of a list of
  fragments.
 */
module Html {

  const SiteOwner := "David Mohr Gould"

  const FooterHTML := "<footer><a href=\"mailto:david@gould.io\">david@gould.io</a></footer>"

  /** The opening of every page, up to and including the stylesheet link. */
  function HeadOpen(title: string): string {
    "<!doctype html>" +
    "<html lang=\"en\">" +
    "<head>" +
    "<meta charset=\"utf-8\">" +
    "<title>" + title + "</title>" +
    "<link rel=\"stylesheet\" href=\"/site.css\">"
  }

  const AnalyticsPrefix :=
    "<script>" +
    "(function(i,s,o,g,r,a,m){i[\"GoogleAnalyticsObject\"]=r;i[r]=i[r]||function(){" +
    "(i[r].q=i[r].q||[]).push(arguments)},i[r].l=1*new Date();a=s.createElement(o), " +
    "m=s.getElementsByTagName(o)[0];a.async=1;a.src=g;m.parentNode.insertBefore(a,m)" +
    "})(window,document,\"script\",\"//www.google-analytics.com/analytics.js\",\"ga\");" +
    "ga(\"create\", \""

  const AnalyticsSuffix :=
    "\", \"auto\");" +
    "ga(\"send\", \"pageview\");" +
    "</script>"

  /**
    `googleAnalyticsTrackingHTML`: one script element that creates a tracker
    for the given id; the id can be read back from between the fixed parts.
   */
  function AnalyticsHTML(trackingId: string): (html: string)
    ensures |html| == |AnalyticsPrefix| + |trackingId| + |AnalyticsSuffix|
    ensures html[..8] == "<script>" && html[|html| - 9..] == "</script>"
    ensures html[|AnalyticsPrefix|..|html| - |AnalyticsSuffix|] == trackingId
  {
    var html := AnalyticsPrefix + trackingId + AnalyticsSuffix;
    assert html[..8] == AnalyticsPrefix[..8];
    assert html[|html| - 9..] == AnalyticsSuffix[|AnalyticsSuffix| - 9..];
    html
  }

  /**
    JavaScript truthiness of the configured tracking id: the empty string
    stands for every falsy value (missing, null, empty).
   */
  predicate Truthy(trackingId: string) {
    trackingId != ""
  }

  /** What the head gains from the tracking id. */
  function HeadExtras(trackingId: string): string {
    if Truthy(trackingId) then AnalyticsHTML(trackingId) else ""
  }

  /** A page: its head, the analytics snippet when configured, then the rest. */
  function Document(title: string, trackingId: string, rest: string): string {
    HeadOpen(title) + HeadExtras(trackingId) + rest
  }

  /**
    A truthy tracking id splices the snippet into the head, just before what
    follows it; a falsy one leaves the page exactly as without tracking.
   */
  lemma AnalyticsOnlyWhenTruthy(title: string, trackingId: string, rest: string)
    ensures var plain, k := Document(title, "", rest), |HeadOpen(title)|;
      Document(title, trackingId, rest) ==
        if Truthy(trackingId) then plain[..k] + AnalyticsHTML(trackingId) + plain[k..] else plain
  {
    var plain, k := Document(title, "", rest), |HeadOpen(title)|;
    assert plain[..k] == HeadOpen(title) && plain[k..] == rest;
  }

  /** The fragments of a list, one after the other. */
  function Concat(parts: seq<string>): string {
    if parts == [] then "" else Concat(parts[..|parts| - 1]) + parts[|parts| - 1]
  }

  lemma {:induction false} ConcatAppend(a: seq<string>, b: seq<string>)
    ensures Concat(a + b) == Concat(a) + Concat(b)
  {
    if b == [] {
      assert a + b == a;
    } else {
      var c := a + b;
      assert c[..|c| - 1] == a + b[..|b| - 1];
      ConcatAppend(a, b[..|b| - 1]);
    }
  }

  /** Everything up to and including part `i` is a prefix of the whole. */
  lemma {:induction false} ConcatPrefix(parts: seq<string>, i: nat)
    requires i < |parts|
    ensures Concat(parts[..i]) + parts[i] <= Concat(parts)
  {
    var last := |parts| - 1;
    var front := parts[..last];
    if i < last {
      assert front[..i] == parts[..i] && front[i] == parts[i];
      ConcatPrefix(front, i);
    } else {
      assert parts[..i] == front;
    }
  }

  /**
    Concatenation is associative. Dafny proves this unaided; calling it names
    the regrouping a page builder needs, which keeps the solver's work small.
   */
  lemma AppendAssoc(a: string, b: string, c: string)
    ensures a + (b + c) == (a + b) + c
  {
  }
}
