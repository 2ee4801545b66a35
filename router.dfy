/**
 * The router: its route table, the scroll rule, the registry of abort
 * controllers and the navigation guard that sends unauthenticated users to
 * the login page.
 */
module Router {
  import opened Wrappers
  import AuthStore

  // ---------------------------------------------------------------------------
  // Route table
  // ---------------------------------------------------------------------------

  /** A route's `meta`; an absent key reads as `false` (or no sub-type). */
  datatype Meta = Meta(keepAlive: bool, requiresAuth: bool, subType: Option<string>)

  /** The `meta` a route without one presents to the guard: `{}`. */
  const EmptyMeta := Meta(false, false, None)

  datatype RouteRecord =
    | RedirectRoute(path: string, target: string)
    | LayoutRoute(path: string, layout: string, children: seq<RouteRecord>)
    | PageRoute(path: string, page: string, props: bool, meta: Option<Meta>)

  function Page(path: string, page: string, keepAlive: bool): RouteRecord {
    PageRoute(path, page, false, Some(Meta(keepAlive, true, None)))
  }

  /** The children of the default layout: every application page. */
  const DefaultLayoutPages: seq<RouteRecord> := [
    Page("/dashboard", "dashboard", true),
    Page("/recommend", "recommend", true),
    Page("/discover", "discover", true),
    Page("/resource", "resource", false),
    PageRoute("/subscribe/movie", "subscribe", false, Some(Meta(true, true, Some("电影")))),
    PageRoute("/subscribe/tv", "subscribe", false, Some(Meta(true, true, Some("电视剧")))),
    Page("/workflow", "workflow", true),
    Page("/calendar", "calendar", true),
    Page("/downloading", "downloading", false),
    Page("/history", "history", false),
    Page("/site", "site", true),
    Page("/user", "user", true),
    Page("/profile", "profile", true),
    Page("/plugins", "plugin", true),
    Page("/setting", "setting", false),
    PageRoute("/browse/:paths+", "browse", true, Some(Meta(true, true, None))),
    PageRoute("/credits/:paths+", "credits", true, Some(Meta(true, true, None))),
    PageRoute("/person", "person", true, Some(Meta(true, true, None))),
    Page("/media", "media", true),
    Page("/filemanager", "filemanager", true),
    Page("/apps", "appcenter", false),
    Page("/collect", "collect", false),
    Page("/task", "task", false),
    Page("/video", "video", true)
  ]

  /** The children of the blank layout: the login page and the catch-all page. */
  const BlankLayoutPages: seq<RouteRecord> := [
    PageRoute("login", "login", false, None),
    PageRoute("/:pathMatch(.*)*", "[...all]", false, None)
  ]

  const Routes: seq<RouteRecord> := [
    RedirectRoute("/", "/dashboard"),
    LayoutRoute("/", "default", DefaultLayoutPages),
    LayoutRoute("/", "blank", BlankLayoutPages)
  ]

  /** The `to.meta` the guard sees when a page route matches (layouts carry none). */
  function MetaOf(r: RouteRecord): (m: Meta)
    ensures r.PageRoute? && r.meta.Some? ==> m == r.meta.value
    ensures m.requiresAuth || m.keepAlive ==> r.PageRoute? && r.meta.Some?
  {
    if r.PageRoute? && r.meta.Some? then r.meta.value else EmptyMeta
  }

  // ---------------------------------------------------------------------------
  // Scroll behaviour
  // ---------------------------------------------------------------------------

  datatype ScrollPosition = ScrollPosition(left: Option<int>, top: int)

  /** `{ top: 0 }`. */
  const ScrollTop := ScrollPosition(None, 0)

  /** Restore the saved position of a kept-alive page; otherwise go to the top. */
  function ScrollBehavior(to: Meta, savedPosition: Option<ScrollPosition>): (p: ScrollPosition)
    ensures to.keepAlive && savedPosition.Some? ==> p == savedPosition.value
    ensures !(to.keepAlive && savedPosition.Some?) ==> p == ScrollTop
  {
    if to.keepAlive && savedPosition.Some? then savedPosition.value else ScrollTop
  }

  // ---------------------------------------------------------------------------
  // Abort controllers
  // ---------------------------------------------------------------------------

  /** An `AbortController`, reduced to whether it has been aborted. */
  class AbortController {
    var aborted: bool

    constructor ()
      ensures !aborted
    {
      aborted := false;
    }

    method Abort()
      modifies this
      ensures aborted
    {
      aborted := true;
    }
  }

  /** The module-level `abortControllers` set. */
  class AbortRegistry {
    var controllers: set<AbortController>

    constructor ()
      ensures controllers == {}
    {
      controllers := {};
    }

    /** `registerAbortController`: a set insertion, so a second registration changes nothing. */
    method Register(controller: AbortController)
      modifies this
      ensures controllers == old(controllers) + {controller}
    {
      controllers := controllers + {controller};
    }

    /** `abortAllControllers`: aborts every registered controller, then empties the set. */
    method AbortAll()
      modifies this, controllers
      ensures controllers == {}
      ensures forall c :: c in old(controllers) ==> c.aborted
    {
      var pending := controllers;
      while pending != {}
        invariant pending <= old(controllers) && controllers == old(controllers)
        invariant forall c :: c in old(controllers) - pending ==> c.aborted
        decreases pending
      {
        var c :| c in pending;
        c.Abort();
        pending := pending - {c};
      }
      controllers := {};
    }
  }

  // ---------------------------------------------------------------------------
  // Navigation guard
  // ---------------------------------------------------------------------------

  /** The target of a navigation. */
  datatype Location = Location(fullPath: string, meta: Meta)

  /** What the guard passes to `next`: nothing, or a redirect path. */
  datatype NextCall = Proceed | RedirectTo(path: string)

  const LoginPath: string := "/login"

  /**
   * The guard's decision: a page that requires authentication, reached without
   * a token, is redirected to the login page; everything else proceeds. Any
   * token, even the empty string, counts as authenticated.
   */
  function Decide(requiresAuth: bool, token: Option<string>): (next: NextCall)
    ensures next.RedirectTo? <==> requiresAuth && token == None
    ensures next.RedirectTo? ==> next.path == LoginPath
  {
    if requiresAuth && token == None then RedirectTo(LoginPath) else Proceed
  }

  /**
   * `router.beforeEach`: records every non-login path as the original path,
   * then either redirects to the login page, leaving the controllers alone, or
   * aborts and forgets every registered controller and proceeds.
   */
  method BeforeEach(auth: AuthStore.Store, registry: AbortRegistry, to: Location) returns (next: NextCall)
    modifies auth, registry, registry.controllers
    ensures to.fullPath != LoginPath ==> auth.originalPath == Some(to.fullPath)
    ensures to.fullPath == LoginPath ==> auth.originalPath == old(auth.originalPath)
    ensures auth.token == old(auth.token) && auth.remember == old(auth.remember)
    ensures next == Decide(to.meta.requiresAuth, auth.token)
    ensures next.RedirectTo? ==>
              registry.controllers == old(registry.controllers)
              && forall c :: c in old(registry.controllers) ==> c.aborted == old(c.aborted)
    ensures next.Proceed? ==>
              registry.controllers == {} && forall c :: c in old(registry.controllers) ==> c.aborted
  {
    if to.fullPath != LoginPath {
      auth.originalPath := Some(to.fullPath);
    }
    var isAuthenticated := auth.token != None;
    if to.meta.requiresAuth && !isAuthenticated {
      next := RedirectTo(LoginPath);
    } else {
      registry.AbortAll();
      next := Proceed;
    }
  }

  // ---------------------------------------------------------------------------
  // Properties of the table
  // ---------------------------------------------------------------------------

  /** Every page of the default layout requires authentication. */
  lemma DefaultLayoutPagesRequireAuth()
    ensures Routes[1].LayoutRoute? && Routes[1].children == DefaultLayoutPages
    ensures forall k :: 0 <= k < |DefaultLayoutPages| ==>
              DefaultLayoutPages[k].PageRoute? && DefaultLayoutPages[k].meta.Some?
              && DefaultLayoutPages[k].meta.value.requiresAuth
  {
  }

  /** The login page and the catch-all page carry no meta. */
  lemma BlankLayoutPagesHaveNoMeta()
    ensures Routes[2].LayoutRoute? && Routes[2].children == BlankLayoutPages
    ensures forall k :: 0 <= k < |BlankLayoutPages| ==>
              BlankLayoutPages[k].PageRoute? && BlankLayoutPages[k].meta == None
  {
  }

  /**
   * Whatever the token, the guard never redirects a page of the blank layout,
   * and without a token it always redirects a page of the default layout.
   */
  lemma GuardOnRouteTable(token: Option<string>)
    ensures forall k :: 0 <= k < |BlankLayoutPages| ==>
              Decide(MetaOf(BlankLayoutPages[k]).requiresAuth, token) == Proceed
    ensures forall k :: 0 <= k < |DefaultLayoutPages| ==>
              Decide(MetaOf(DefaultLayoutPages[k]).requiresAuth, None) == RedirectTo(LoginPath)
  {
    DefaultLayoutPagesRequireAuth();
    BlankLayoutPagesHaveNoMeta();
  }

  /** Only kept-alive pages get their saved position back. */
  lemma ScrollOnRouteTable(saved: ScrollPosition)
    ensures ScrollBehavior(MetaOf(DefaultLayoutPages[0]), Some(saved)) == saved
    ensures ScrollBehavior(MetaOf(DefaultLayoutPages[3]), Some(saved)) == ScrollTop
    ensures forall k :: 0 <= k < |BlankLayoutPages| ==>
              ScrollBehavior(MetaOf(BlankLayoutPages[k]), Some(saved)) == ScrollTop
  {
  }

  /** After a logout, every page of the default layout sends the user to the login page. */
  method NavigateAfterLogout(auth: AuthStore.Store, registry: AbortRegistry, k: nat) returns (next: NextCall)
    requires k < |DefaultLayoutPages|
    modifies auth, registry, registry.controllers
    ensures next == RedirectTo(LoginPath)
  {
    auth.Logout();
    var page := DefaultLayoutPages[k];
    DefaultLayoutPagesRequireAuth();
    next := BeforeEach(auth, registry, Location(page.path, MetaOf(page)));
  }
}
