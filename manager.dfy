/** scraper/browser/manager.py: the shared Playwright instance, browser and
    context, created lazily and torn down in reverse order. Handles are
    numbers drawn from a counter, so a handle made later is always a new one;
    what the manager asks Playwright to do is recorded in `log`. */
module Manager {
  import opened Outcomes

  datatype Action =
    | StartPlaywright(playwright: nat)
    | LaunchBrowser(browser: nat, on: nat)
    | CreateContext(context: nat, within: nat)
    | CreateTab(tab: nat, context: nat)
    | CloseContext(context: nat)
    | CloseBrowser(browser: nat)
    | StopPlaywright(playwright: nat)

  /** The three class attributes and the next unused handle. */
  datatype Handles = Handles(playwright: Option<nat>, browser: Option<nat>, context: Option<nat>, next: nat)

  /** Every handle held was made before `next`. */
  predicate Fresh(h: Handles) {
    (h.playwright.Some? ==> h.playwright.value < h.next) &&
    (h.browser.Some? ==> h.browser.value < h.next) &&
    (h.context.Some? ==> h.context.value < h.next)
  }

  /** A context is only held on a browser, a browser only on playwright. */
  predicate Layered(h: Handles) {
    (h.context.Some? ==> h.browser.Some?) && (h.browser.Some? ==> h.playwright.Some?)
  }

  /** `initialize`: each of playwright, browser and context is created, in
      that order, only when it is None; the browser is launched on the
      playwright held at that point, the context on the browser. */
  function Init(h: Handles): (Handles, seq<Action>) {
    var (h1, a1) :=
      if h.playwright.None? then (h.(playwright := Some(h.next), next := h.next + 1), [StartPlaywright(h.next)])
      else (h, []);
    var (h2, a2) :=
      if h1.browser.None? then (h1.(browser := Some(h1.next), next := h1.next + 1), [LaunchBrowser(h1.next, h1.playwright.value)])
      else (h1, []);
    var (h3, a3) :=
      if h2.context.None? then (h2.(context := Some(h2.next), next := h2.next + 1), [CreateContext(h2.next, h2.browser.value)])
      else (h2, []);
    (h3, a1 + a2 + a3)
  }

  /** `get_context`: `initialize` only when there is no context. */
  function GetContext(h: Handles): (Handles, seq<Action>) {
    if h.context.None? then Init(h) else (h, [])
  }

  /** `close`: the context, then the browser, then playwright, each only when
      it is set. */
  function CloseActions(h: Handles): seq<Action> {
    (if h.context.Some? then [CloseContext(h.context.value)] else []) +
    (if h.browser.Some? then [CloseBrowser(h.browser.value)] else []) +
    (if h.playwright.Some? then [StopPlaywright(h.playwright.value)] else [])
  }

  class BrowserManager {
    var playwright: Option<nat>
    var browser: Option<nat>
    var context: Option<nat>
    var nextHandle: nat
    var log: seq<Action>

    function State(): Handles
      reads this
    {
      Handles(playwright, browser, context, nextHandle)
    }

    /** Every handle held is fresh, and a context is only held on a browser,
        a browser only on playwright (the order `initialize` builds them in
        and the reverse of the order `close` drops them in). */
    ghost predicate Valid()
      reads this
    {
      Fresh(State()) && Layered(State())
    }

    constructor()
      ensures State() == Handles(None, None, None, 0) && log == [] && Valid()
    {
      playwright, browser, context := None, None, None;
      nextHandle := 0;
      log := [];
    }

    method Initialize()
      requires Valid()
      modifies this
      ensures State() == Init(old(State())).0
      ensures log == old(log) + Init(old(State())).1
      ensures Valid()
    {
      InitComplete(State());
      var a1: seq<Action>, a2: seq<Action>, a3: seq<Action> := [], [], [];
      if playwright.None? {
        playwright := Some(nextHandle);
        a1 := [StartPlaywright(nextHandle)];
        nextHandle := nextHandle + 1;
      }
      if browser.None? {
        browser := Some(nextHandle);
        a2 := [LaunchBrowser(nextHandle, playwright.value)];
        nextHandle := nextHandle + 1;
      }
      if context.None? {
        context := Some(nextHandle);
        a3 := [CreateContext(nextHandle, browser.value)];
        nextHandle := nextHandle + 1;
      }
      log := log + (a1 + a2 + a3);
      assert old(log) + (a1 + a2 + a3) == old(log) + Init(old(State())).1;
    }

    method GetContextOf() returns (ctx: nat)
      requires Valid()
      modifies this
      ensures State() == GetContext(old(State())).0
      ensures log == old(log) + GetContext(old(State())).1
      ensures context == Some(ctx)
      ensures Valid()
    {
      if context.None? {
        Initialize();
        InitComplete(old(State()));
      }
      ctx := context.value;
    }

    /** `new_page`: a tab in the shared context, made after it, with a handle
        that differs from every handle made before the call and from the
        playwright, browser and context the manager holds. */
    method NewPage() returns (tab: nat)
      requires Valid()
      modifies this
      ensures var (h, acts) := GetContext(old(State()));
        playwright == h.playwright && browser == h.browser && context == h.context &&
        tab == h.next && nextHandle == tab + 1 &&
        log == old(log) + acts + [CreateTab(tab, h.context.value)]
      ensures old(nextHandle) <= tab
      ensures playwright.Some? && playwright.value != tab
      ensures browser.Some? && browser.value != tab
      ensures context.Some? && context.value != tab
      ensures Valid()
    {
      var ctx := GetContextOf();
      tab := nextHandle;
      nextHandle := nextHandle + 1;
      log := log + [CreateTab(tab, ctx)];
    }

    method Close()
      requires Valid()
      modifies this
      ensures State() == Handles(None, None, None, old(nextHandle))
      ensures log == old(log) + CloseActions(old(State()))
      ensures Valid()
    {
      var a1: seq<Action>, a2: seq<Action>, a3: seq<Action> := [], [], [];
      if context.Some? {
        a1 := [CloseContext(context.value)];
        context := None;
      }
      if browser.Some? {
        a2 := [CloseBrowser(browser.value)];
        browser := None;
      }
      if playwright.Some? {
        a3 := [StopPlaywright(playwright.value)];
        playwright := None;
      }
      log := log + (a1 + a2 + a3);
    }
  }

  /** After `initialize` all three are set, those already set are kept, and
      fresh handles stay fresh. */
  lemma InitComplete(h: Handles)
    ensures var r := Init(h).0;
      r.playwright.Some? && r.browser.Some? && r.context.Some? &&
      (h.playwright.Some? ==> r.playwright == h.playwright) &&
      (h.browser.Some? ==> r.browser == h.browser) &&
      (h.context.Some? ==> r.context == h.context) &&
      h.next <= r.next && (Fresh(h) ==> Fresh(r))
  {
  }

  /** A second `initialize` recreates nothing and asks Playwright for nothing. */
  lemma InitIdempotent(h: Handles)
    ensures Init(Init(h).0) == (Init(h).0, [])
  {
    InitComplete(h);
    var r := Init(h).0;
    assert r.playwright.Some? && r.browser.Some? && r.context.Some?;
    assert Init(r).0 == r;
    assert Init(r).1 == [];
  }

  /** Only what is missing is created, each with a handle never used before,
      and each piece is built on the one created or kept before it. */
  lemma InitCreatesMissing(h: Handles)
    requires Fresh(h)
    ensures var (r, acts) := Init(h);
      |acts| == (if h.playwright.None? then 1 else 0) + (if h.browser.None? then 1 else 0) +
                (if h.context.None? then 1 else 0) &&
      (forall k :: 0 <= k < |acts| ==> acts[k].StartPlaywright? ==> acts[k].playwright == r.playwright.value) &&
      (forall k :: 0 <= k < |acts| ==> acts[k].LaunchBrowser? ==>
         acts[k].browser == r.browser.value && acts[k].on == r.playwright.value) &&
      (forall k :: 0 <= k < |acts| ==> acts[k].CreateContext? ==>
         acts[k].context == r.context.value && acts[k].within == r.browser.value) &&
      (h.playwright.None? ==> h.next <= r.playwright.value) &&
      (h.browser.None? ==> h.next <= r.browser.value) &&
      (h.context.None? ==> h.next <= r.context.value)
  {
  }

  /** `get_context` returns a context in every case, building the missing
      pieces only when there was none. */
  lemma GetContextShape(h: Handles)
    ensures var (r, acts) := GetContext(h);
      r.context.Some? &&
      (h.context.Some? ==> r == h && acts == []) &&
      (h.context.None? ==> (r, acts) == Init(h))
  {
    InitComplete(h);
  }

  /** `close` leaves nothing set, closes the context before the browser and
      the browser before stopping playwright, and a second `close` does nothing. */
  lemma CloseOrder(h: Handles)
    requires h.context.Some? && h.browser.Some? && h.playwright.Some?
    ensures CloseActions(h) == [CloseContext(h.context.value), CloseBrowser(h.browser.value), StopPlaywright(h.playwright.value)]
    ensures CloseActions(Handles(None, None, None, h.next)) == []
  {
  }

  /** After `close`, the next `initialize` builds all three afresh: three
      actions, and handles differing from every handle held before. */
  lemma CloseThenInit(h: Handles)
    requires Fresh(h)
    ensures var (r, acts) := Init(Handles(None, None, None, h.next));
      |acts| == 3 && acts[0].StartPlaywright? && acts[1].LaunchBrowser? && acts[2].CreateContext? &&
      (h.playwright.Some? ==> r.playwright != h.playwright) &&
      (h.browser.Some? ==> r.browser != h.browser) &&
      (h.context.Some? ==> r.context != h.context)
  {
  }
}
