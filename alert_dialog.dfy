/**
 * The alert dialog's open flag and its scroll lock
 * (packages/alert-dialog/src/AlertDialog.tsx): the root reconciles a
 * caller-controlled `open` with its own retained flag, a fixed set of events
 * request opening or closing, and the content saves the page body's
 * `overflow`, sets it to "hidden" while open, and restores it on close.
 */
module AlertDialog {
  import opened Wrappers
  import Button

  /** The page body, whose inline `overflow` style is shared by the whole page. */
  class Body {
    var overflow: string

    constructor (overflow: string)
      ensures this.overflow == overflow
    {
      this.overflow := overflow;
    }
  }

  /** The buttons that wrap a caller-supplied `onClick`. */
  datatype Control = Trigger | Action | Cancel

  /** An input event reaching the dialog. */
  datatype Event =
    | Click(control: Control, hasOnClick: bool)  // a button; `hasOnClick` if the caller gave one
    | OverlayClick
    | KeyDown(key: string)                       // a key pressed anywhere in the document

  /** A call the dialog makes into caller code. */
  datatype Call = CallerOnClick(control: Control) | OpenChange(open: bool)

  /**
   * The open flag an event asks for, if any. `contentShown` says the content
   * (and with it the overlay and the Escape listener) is on screen.
   */
  function RequestedOpen(ev: Event, contentShown: bool, closeOnEscape: bool): (r: Option<bool>)
    // only the trigger opens, and it always does
    ensures r == Some(true) <==> ev.Click? && ev.control == Trigger
    // Action and Cancel always close; the overlay closes whenever it is shown
    ensures ev.Click? && ev.control != Trigger ==> r == Some(false)
    ensures ev.OverlayClick? ==> (r == Some(false) <==> contentShown) && (r.None? <==> !contentShown)
    // Escape closes only while shown with `closeOnEscape`; other keys do nothing
    ensures ev.KeyDown? ==> (r == Some(false) <==> contentShown && closeOnEscape && ev.key == "Escape")
    ensures ev.KeyDown? ==> r != Some(true)
  {
    match ev
    case Click(control, _) => Some(control == Trigger)
    case OverlayClick => if contentShown then Some(false) else None
    case KeyDown(key) => if contentShown && closeOnEscape && key == "Escape" then Some(false) else None
  }

  /** The caller's own `onClick`, which a button runs before requesting. */
  function CallerCalls(ev: Event): (c: seq<Call>)
    ensures |c| <= 1
    ensures c != [] <==> ev.Click? && ev.hasOnClick
    ensures forall k :: 0 <= k < |c| ==> c[k] == CallerOnClick(ev.control)
  {
    if ev.Click? && ev.hasOnClick then [CallerOnClick(ev.control)] else []
  }

  /**
   * `AlertDialogCancel` passes its props on to `Button` with the variant
   * defaulting to `ghost`.
   */
  function CancelButtonProps(p: Button.ButtonProps): (q: Button.ButtonProps)
    ensures Button.Render(q).variant == p.variant.GetOr(Button.Ghost)
    ensures q.(variant := p.variant) == p
  {
    p.(variant := Some(p.variant.GetOr(Button.Ghost)))
  }

  /**
   * The `AlertDialog` root together with its one `AlertDialogContent`.
   * `savedOverflow` is the snapshot held by the scroll-lock effect's cleanup:
   * present exactly while the lock is held. `calls` records, in order, every
   * call into caller code.
   */
  class AlertDialogRoot {
    var controlledOpen: Option<bool>
    var uncontrolledOpen: bool
    var hasListener: bool
    var closeOnClickOutside: bool
    var closeOnEscape: bool
    var mounted: bool
    var calls: seq<Call>
    var savedOverflow: Option<string>
    const body: Body

    /** The lock is held exactly while the content is shown. */
    ghost predicate Valid()
      reads this
    {
      savedOverflow.Some? <==> ContentShown()
    }

    predicate IsControlled()
      reads this
    {
      controlledOpen.Some?
    }

    /** `open` as the context hands it to the parts. */
    function Open(): (o: bool)
      reads this
      ensures IsControlled() ==> o == controlledOpen.value
      ensures !IsControlled() ==> o == uncontrolledOpen
    {
      if IsControlled() then controlledOpen.value else uncontrolledOpen
    }

    /** Content and overlay render nothing unless open. */
    function ContentShown(): (shown: bool)
      reads this
      ensures shown ==> mounted && Open()
      ensures !Open() ==> !shown
      ensures mounted && Open() ==> shown
    {
      mounted && Open()
    }

    /** The document `keydown` listener is registered only while shown with `closeOnEscape`. */
    function EscapeListening(): (listening: bool)
      reads this
      ensures listening ==> ContentShown() && closeOnEscape
      ensures !closeOnEscape || !Open() ==> !listening
      ensures ContentShown() && closeOnEscape ==> listening
    {
      ContentShown() && closeOnEscape
    }

    /**
     * One commit's effect on the scroll lock: acquiring saves the old
     * `overflow` and sets "hidden", releasing writes the snapshot back, and
     * otherwise the body is left alone.
     */
    twostate predicate LockStep()
      reads this, body
    {
      && (old(savedOverflow).None? && savedOverflow.Some? ==>
            savedOverflow == Some(old(body.overflow)) && body.overflow == "hidden")
      && (old(savedOverflow).Some? && savedOverflow.None? ==>
            body.overflow == old(savedOverflow).value)
      && (old(savedOverflow).Some? && savedOverflow.Some? ==>
            savedOverflow == old(savedOverflow) && body.overflow == old(body.overflow))
      && (old(savedOverflow).None? && savedOverflow.None? ==>
            body.overflow == old(body.overflow))
    }

    /** Mounting root and content with the props of the first render. */
    constructor (controlledOpen: Option<bool>, defaultOpen: Option<bool>, hasListener: bool,
                 closeOnClickOutside: Option<bool>, closeOnEscape: Option<bool>, body: Body)
      modifies body
      ensures Valid() && mounted && this.body == body
      ensures this.controlledOpen == controlledOpen
      ensures uncontrolledOpen == defaultOpen.GetOr(false)
      ensures this.hasListener == hasListener
      ensures this.closeOnClickOutside == closeOnClickOutside.GetOr(false)
      ensures this.closeOnEscape == closeOnEscape.GetOr(true)
      ensures calls == []
      ensures Open() ==> savedOverflow == Some(old(body.overflow)) && body.overflow == "hidden"
      ensures !Open() ==> body.overflow == old(body.overflow)
    {
      this.controlledOpen := controlledOpen;
      uncontrolledOpen := defaultOpen.GetOr(false);
      this.hasListener := hasListener;
      this.closeOnClickOutside := closeOnClickOutside.GetOr(false);
      this.closeOnEscape := closeOnEscape.GetOr(true);
      mounted := true;
      calls := [];
      savedOverflow := None;
      this.body := body;
      new;
      CommitEffects();
    }

    /** Re-running the scroll-lock effect after a commit, as its `[open]` dependency demands. */
    method CommitEffects()
      modifies this`savedOverflow, body`overflow
      ensures Valid() && LockStep()
    {
      if ContentShown() && savedOverflow.None? {
        savedOverflow := Some(body.overflow);
        body.overflow := "hidden";
      } else if !ContentShown() && savedOverflow.Some? {
        body.overflow := savedOverflow.value;
        savedOverflow := None;
      }
    }

    /** `handleOpenChange`: store only when uncontrolled, always notify, then commit. */
    method HandleOpenChange(newOpen: bool)
      modifies this`uncontrolledOpen, this`calls, this`savedOverflow, body`overflow
      ensures uncontrolledOpen == if IsControlled() then old(uncontrolledOpen) else newOpen
      ensures Open() == if IsControlled() then old(Open()) else newOpen
      ensures calls == old(calls) + if hasListener then [OpenChange(newOpen)] else []
      ensures Valid() && LockStep()
    {
      if !IsControlled() {
        uncontrolledOpen := newOpen;
      }
      if hasListener {
        calls := calls + [OpenChange(newOpen)];
      }
      CommitEffects();
    }

    /** An event: the caller's `onClick` first, then the requested open change, if any. */
    method Dispatch(ev: Event)
      modifies this`uncontrolledOpen, this`calls, this`savedOverflow, body`overflow
      ensures
        var req := RequestedOpen(ev, old(ContentShown()), closeOnEscape);
        && calls == old(calls) + CallerCalls(ev) + (if req.Some? && hasListener then [OpenChange(req.value)] else [])
        && uncontrolledOpen == (if req.Some? && !IsControlled() then req.value else old(uncontrolledOpen))
      // a key press closes exactly when the Escape listener is registered and the key is Escape
      ensures ev.KeyDown? ==>
        (RequestedOpen(ev, old(ContentShown()), closeOnEscape) == Some(false) <==> old(EscapeListening()) && ev.key == "Escape")
      ensures Valid() && LockStep()
    {
      var req := RequestedOpen(ev, ContentShown(), closeOnEscape);
      calls := calls + CallerCalls(ev);
      if req.Some? {
        HandleOpenChange(req.value);
      } else {
        CommitEffects();
      }
    }

    /** A later render with new props; the retained flag and `defaultOpen` stay as they were. */
    method Rerender(controlledOpen: Option<bool>, hasListener: bool,
                    closeOnClickOutside: Option<bool>, closeOnEscape: Option<bool>)
      modifies this, body`overflow
      ensures this.controlledOpen == controlledOpen
      ensures this.hasListener == hasListener
      ensures this.closeOnClickOutside == closeOnClickOutside.GetOr(false)
      ensures this.closeOnEscape == closeOnEscape.GetOr(true)
      ensures uncontrolledOpen == old(uncontrolledOpen) && mounted == old(mounted)
      ensures calls == old(calls)
      ensures Valid() && LockStep()
    {
      this.controlledOpen := controlledOpen;
      this.hasListener := hasListener;
      this.closeOnClickOutside := closeOnClickOutside.GetOr(false);
      this.closeOnEscape := closeOnEscape.GetOr(true);
      CommitEffects();
    }

    /** Unmounting the content runs the cleanup: the lock is released on this exit path too. */
    method Unmount()
      requires Valid()
      modifies this`mounted, this`savedOverflow, body`overflow
      ensures !mounted && savedOverflow.None? && Valid()
      ensures body.overflow == if old(ContentShown()) then old(savedOverflow).value else old(body.overflow)
    {
      mounted := false;
      CommitEffects();
    }
  }

  /**
   * Opening an uncontrolled dialog with its trigger and then closing it by any
   * closing event leaves the body's `overflow` as it was, with one
   * notification for each step.
   */
  method OpenThenClose(d: AlertDialogRoot, closer: Event)
    requires d.Valid() && d.mounted && !d.IsControlled() && !d.Open()
    requires RequestedOpen(closer, true, d.closeOnEscape) == Some(false)
    modifies d, d.body
    ensures d.Valid() && !d.Open() && d.savedOverflow.None?
    ensures d.body.overflow == old(d.body.overflow)
    ensures d.calls == old(d.calls)
      + (if d.hasListener then [OpenChange(true)] else [])
      + CallerCalls(closer)
      + (if d.hasListener then [OpenChange(false)] else [])
  {
    d.Dispatch(Click(Trigger, false));
    assert d.Open() && d.body.overflow == "hidden";
    d.Dispatch(closer);
  }

  /** Open with the trigger, ignore Enter, close with Escape: the lock is released and each step notifies once. */
  method Walkthrough()
  {
    var body := new Body("auto");
    var d := new AlertDialogRoot(None, None, true, None, None, body);
    assert !d.Open() && body.overflow == "auto";
    d.Dispatch(Click(Trigger, true));
    assert d.Open() && body.overflow == "hidden";
    assert d.calls == [CallerOnClick(Trigger), OpenChange(true)];
    d.Dispatch(KeyDown("Enter"));
    assert d.Open() && d.calls == [CallerOnClick(Trigger), OpenChange(true)];
    d.Dispatch(KeyDown("Escape"));
    assert !d.Open() && body.overflow == "auto";
    assert d.calls == [CallerOnClick(Trigger), OpenChange(true), OpenChange(false)];
    // a second close request while closed notifies again but leaves the body alone
    d.Dispatch(Click(Cancel, false));
    assert body.overflow == "auto" && |d.calls| == 4;
    d.Dispatch(OverlayClick);
    assert |d.calls| == 4;

    // controlled: the request is reported, but nothing opens until the caller re-renders
    var c := new AlertDialogRoot(Some(false), None, true, None, None, body);
    c.Dispatch(Click(Trigger, false));
    assert !c.Open() && body.overflow == "auto" && c.calls == [OpenChange(true)];
    c.Rerender(Some(true), true, None, None);
    assert c.Open() && body.overflow == "hidden";
    c.Unmount();
    assert body.overflow == "auto";
  }
}
