/**
 * Hash routing: the page the location fragment names, the page that is
 * shown for it (falling back to home), and the highlight of the navigation
 * link for the current page.
 */
module Router {

  /** The page shown for an empty fragment and for an unknown one. */
  const Home: string := "home"
  /** The page whose display renders the full listing. */
  const PropertiesPage: string := "properties"

  /** `window.location.hash.slice(1) || 'home'`. */
  function Resolve(hash: string): (r: string)
    ensures r != ""
  {
    var fragment := if |hash| >= 1 then hash[1..] else "";
    if fragment == "" then Home else fragment
  }

  /** An empty fragment resolves to home; any other names the page after the '#'. */
  lemma ResolveHome(hash: string)
    ensures |hash| <= 1 ==> Resolve(hash) == Home
    ensures |hash| > 1 ==> Resolve(hash) == hash[1..]
    ensures Resolve(hash) != ""
  {
  }

  /** The pages `showPage(pageId)` leaves active, given the declared page ids. */
  function ActivePages(pages: set<string>, pageId: string): (r: set<string>)
    ensures r <= pages && |r| <= 1
    ensures pageId in pages <==> pageId in r
  {
    if pageId in pages then {pageId} else if Home in pages then {Home} else {}
  }

  /** Whether `showPage(pageId)` rewrites the fragment to home. */
  predicate Redirects(pages: set<string>, pageId: string)
  {
    pageId !in pages && Home in pages
  }

  /** `linkPage === currentPage` for a navigation link's `href`. */
  predicate IsCurrentLink(href: string, current: string)
  {
    (if |href| >= 1 then href[1..] else "") == current
  }

  /**
   * With a home page declared, `showPage` leaves exactly one page active: the
   * requested one when it is declared, home otherwise.
   */
  lemma ExactlyOneActive(pages: set<string>, pageId: string)
    requires Home in pages
    ensures |ActivePages(pages, pageId)| == 1
    ensures ActivePages(pages, pageId) == if pageId in pages then {pageId} else {Home}
    ensures ActivePages(pages, pageId) <= pages
  {
  }

  /**
   * Routing home is a fixpoint: after a redirect the fragment names home,
   * and routing that fragment shows home and redirects no further.
   */
  lemma RedirectSettles(pages: set<string>, pageId: string)
    requires Redirects(pages, pageId)
    ensures Resolve("#" + Home) == Home
    ensures !Redirects(pages, Resolve("#" + Home))
    ensures ActivePages(pages, Resolve("#" + Home)) == ActivePages(pages, pageId) == {Home}
  {
    assert ("#" + Home)[1..] == Home;
  }

  class PageController {
    /** The ids of the pages the document declares (elements `<id>-page`). */
    const pages: set<string>
    /** The `href` of each navigation link, "" for a link without one. */
    const links: seq<string>
    /** `window.location.hash`. */
    var hash: string
    /** The pages carrying the `active` class. */
    var active: set<string>
    /** Per navigation link, whether it is styled as the current page. */
    var highlighted: seq<bool>

    ghost predicate Valid()
      reads this
    {
      |highlighted| == |links|
    }

    constructor (pages: set<string>, links: seq<string>, hash: string)
      ensures Valid()
      ensures this.pages == pages && this.links == links && this.hash == hash
      ensures active == {} && highlighted == seq(|links|, i => false)
    {
      this.pages := pages;
      this.links := links;
      this.hash := hash;
      active := {};
      highlighted := seq(|links|, i => false);
    }

    /**
     * `showPage`: every page is deactivated, then the requested page is
     * activated if declared; otherwise home is activated and the fragment
     * is set to home. Returns whether the full listing must be rendered.
     */
    method ShowPage(pageId: string) returns (renderListing: bool)
      requires Valid()
      modifies this
      ensures Valid() && highlighted == old(highlighted)
      ensures active == ActivePages(pages, pageId)
      ensures hash == if Redirects(pages, pageId) then "#" + Home else old(hash)
      ensures renderListing <==> pageId in pages && pageId == PropertiesPage
    {
      active := {};
      renderListing := false;
      if pageId in pages {
        active := active + {pageId};
        if pageId == PropertiesPage {
          renderListing := true;
        }
      } else if Home in pages {
        active := active + {Home};
        hash := "#" + Home;
      }
    }

    /**
     * `updateNavigation`: each link with an `href` is styled as current
     * exactly when it names `current`; a link without one keeps its style.
     */
    method UpdateNavigation(current: string)
      requires Valid()
      modifies this
      ensures Valid() && hash == old(hash) && active == old(active)
      ensures forall i :: 0 <= i < |links| ==>
        highlighted[i] == if links[i] == "" then old(highlighted[i]) else IsCurrentLink(links[i], current)
    {
      var i := 0;
      while i < |links|
        invariant 0 <= i <= |links| && |highlighted| == |links|
        invariant hash == old(hash) && active == old(active)
        invariant forall k :: 0 <= k < i ==>
          highlighted[k] == if links[k] == "" then old(highlighted[k]) else IsCurrentLink(links[k], current)
        invariant forall k :: i <= k < |links| ==> highlighted[k] == old(highlighted[k])
      {
        var href := links[i];
        if href != "" {
          var linkPage := if |href| >= 1 then href[1..] else "";
          highlighted := highlighted[i := linkPage == current];
        }
        i := i + 1;
      }
    }

    /**
     * `handleRouting`: the page the fragment names is shown and its
     * navigation link highlighted (for the resolved name, before any
     * fallback to home).
     */
    method HandleRouting() returns (renderListing: bool)
      requires Valid()
      modifies this
      ensures Valid()
      ensures active == ActivePages(pages, Resolve(old(hash)))
      ensures hash == if Redirects(pages, Resolve(old(hash))) then "#" + Home else old(hash)
      ensures renderListing <==> Resolve(old(hash)) in pages && Resolve(old(hash)) == PropertiesPage
      ensures forall i :: 0 <= i < |links| ==>
        highlighted[i] == if links[i] == "" then old(highlighted[i]) else IsCurrentLink(links[i], Resolve(old(hash)))
    {
      var page := Resolve(hash);
      renderListing := ShowPage(page);
      UpdateNavigation(page);
    }

    /** The window `load` handler: an empty fragment becomes home, then the fragment is routed. */
    method OnLoad() returns (renderListing: bool)
      requires Valid()
      modifies this
      ensures Valid()
      ensures var h := if old(hash) == "" then "#" + Home else old(hash);
        && active == ActivePages(pages, Resolve(h))
        && hash == (if Redirects(pages, Resolve(h)) then "#" + Home else h)
        && (renderListing <==> Resolve(h) in pages && Resolve(h) == PropertiesPage)
        && forall i :: 0 <= i < |links| ==>
             highlighted[i] == if links[i] == "" then old(highlighted[i]) else IsCurrentLink(links[i], Resolve(h))
      ensures old(hash) == "" ==> active == ActivePages(pages, Home)
    {
      if hash == "" {
        hash := "#" + Home;
        assert hash[1..] == Home;
      }
      renderListing := HandleRouting();
    }
  }
}
