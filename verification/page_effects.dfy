/**
 * Two small decisions of the page scripts (js/main.js): the stagger delay of
 * fade-in elements that share a parent, and which link clicks skip the
 * page-transition animation.
 */
module PageEffects {
  import opened Wrappers
  import opened Text

  const STAGGER_STEP_MS: int := 150

  /** The transitionDelay (in ms) given to the element at index idx among its
      fade-in siblings; None leaves the stylesheet's delay in place (the
      first sibling, and an element not found among them, idx = -1). */
  function StaggerDelay(idx: int): (d: Option<int>)
    ensures d.Some? <==> idx > 0
    ensures d.Some? ==> d.value >= STAGGER_STEP_MS && d.value % STAGGER_STEP_MS == 0
    ensures d.Some? ==> d.value / STAGGER_STEP_MS == idx
  {
    if idx > 0 then Some(idx * STAGGER_STEP_MS) else None
  }

  /** Later siblings start later, one step apart. */
  lemma StaggerIncreases(i: int, j: int)
    requires 0 < i < j
    ensures StaggerDelay(i).value + STAGGER_STEP_MS * (j - i) == StaggerDelay(j).value
  {
  }

  /** The click handler returns early (no fade-out, normal navigation) for a
      missing or empty href, anchors, tel:, mailto:, anything starting with
      "http" or "javascript", and links that open a new window. */
  predicate SkipsTransition(href: Option<string>, target: Option<string>) {
    || href.None? || href.value == ""
    || StartsWith(href.value, "#")
    || StartsWith(href.value, "tel:")
    || StartsWith(href.value, "mailto:")
    || StartsWith(href.value, "http")
    || StartsWith(href.value, "javascript")
    || target == Some("_blank")
  }

  /** Absolute http and https links, and javascript: links, never animate. */
  lemma ExternalLinksSkip(rest: string, target: Option<string>)
    ensures SkipsTransition(Some("https://" + rest), target)
    ensures SkipsTransition(Some("http://" + rest), target)
    ensures SkipsTransition(Some("javascript:" + rest), target)
  {
    assert ("https://" + rest)[..4] == "http";
    assert ("http://" + rest)[..4] == "http";
    assert ("javascript:" + rest)[..10] == "javascript";
  }

  /** A root-relative link in the same window is animated. */
  lemma RootRelativeLinksAnimate(rest: string, target: Option<string>)
    requires target != Some("_blank")
    ensures !SkipsTransition(Some("/" + rest), target)
  {
    var h := "/" + rest;
    assert h[0] == '/';
    NotStartsWithOtherHead(h, "#");
    NotStartsWithOtherHead(h, "tel:");
    NotStartsWithOtherHead(h, "mailto:");
    NotStartsWithOtherHead(h, "http");
    NotStartsWithOtherHead(h, "javascript");
  }
}
