/** scraper/browser/window.py: a list of browser contexts tracked as windows.
    Contexts are handles (numbers); `closed` records every `close()` call the
    manager makes and `failed` the ones that raised and were only logged. */
module Window {

  /** The contexts of `ws` whose `close()` raises, in tracking order. */
  function Raising(ws: seq<nat>, raises: nat -> bool): (r: seq<nat>)
    ensures |r| <= |ws|
    ensures forall c :: c in r <==> c in ws && raises(c)
  {
    if ws == [] then []
    else (if raises(ws[0]) then [ws[0]] else []) + Raising(ws[1..], raises)
  }

  /** The failures of a concatenation are those of each part, in order. */
  lemma {:induction false} RaisingAppend(a: seq<nat>, b: seq<nat>, raises: nat -> bool)
    ensures Raising(a + b, raises) == Raising(a, raises) + Raising(b, raises)
  {
    if a == [] {
      assert a + b == b;
    } else {
      assert (a + b)[1..] == a[1..] + b;
      RaisingAppend(a[1..], b, raises);
    }
  }

  /** One more context extends the failures by that context when it raises. */
  lemma RaisingSnoc(ws: seq<nat>, i: nat, raises: nat -> bool)
    requires i < |ws|
    ensures ws[..i + 1] == ws[..i] + [ws[i]]
    ensures Raising(ws[..i + 1], raises) == Raising(ws[..i], raises) + (if raises(ws[i]) then [ws[i]] else [])
  {
    assert ws[..i + 1] == ws[..i] + [ws[i]];
    RaisingAppend(ws[..i], [ws[i]], raises);
    assert Raising([ws[i]], raises) == (if raises(ws[i]) then [ws[i]] else []) + Raising([], raises);
  }

  class WindowManager {
    var windows: seq<nat>
    var closed: seq<nat>
    var failed: seq<nat>

    constructor()
      ensures windows == [] && closed == [] && failed == []
    {
      windows, closed, failed := [], [], [];
    }

    method Track(ctx: nat)
      modifies this
      ensures windows == old(windows) + [ctx]
      ensures closed == old(closed) && failed == old(failed)
    {
      windows := windows + [ctx];
    }

    /** The `windows` property: a new list with the tracked contexts, so that
        changing it leaves the manager's own list alone. */
    method Windows() returns (copy: array<nat>)
      ensures fresh(copy)
      ensures copy[..] == windows
    {
      copy := new nat[|windows|](i requires 0 <= i < |windows| reads this => windows[i]);
    }

    /** `close_all`: every tracked context is closed in order, an exception
        from one does not stop the others, and the list is emptied. */
    method CloseAll(raises: nat -> bool)
      modifies this
      ensures closed == old(closed) + old(windows)
      ensures failed == old(failed) + Raising(old(windows), raises)
      ensures windows == []
    {
      var ws := windows;
      var attempted, raised := [], [];
      var i := 0;
      while i < |ws|
        invariant 0 <= i <= |ws| && unchanged(this)
        invariant attempted == ws[..i]
        invariant raised == Raising(ws[..i], raises)
      {
        var ctx := ws[i];
        attempted := attempted + [ctx];
        RaisingSnoc(ws, i, raises);
        if raises(ctx) {
          raised := raised + [ctx];
        }
        i := i + 1;
      }
      assert ws[..i] == ws;
      closed, failed := closed + attempted, failed + raised;
      windows := [];
    }
  }
}
