/**
 * The derived state of `Button` (packages/button/src/Button.tsx): which
 * variant and size apply, which class flags are set, whether the native
 * button is disabled, and which slots render in which order. Class-string
 * assembly itself is left to the styling library and not modelled.
 */
module Button {
  import opened Wrappers

  datatype Variant = Primary | Secondary | Subtle | Ghost | Outline | Destructive | Link
  datatype Size = Xs | Sm | Md | Lg | Icon

  /** An icon or other rendered node, identified by an opaque label. */
  type Node = string

  /** The props the component reads; `None` is an omitted prop. */
  datatype ButtonProps = ButtonProps(
    variant: Option<Variant>,
    size: Option<Size>,
    isLoading: Option<bool>,
    fullWidth: Option<bool>,
    leftIcon: Option<Node>,
    rightIcon: Option<Node>,
    disabled: Option<bool>)

  /** Every prop omitted. */
  const NoProps := ButtonProps(None, None, None, None, None, None, None)

  /** One child position inside the native button. */
  datatype Slot = SpinnerSlot | LeftIconSlot(icon: Node) | ChildrenSlot | RightIconSlot(icon: Node)

  /** What the component hands to the native button element. */
  datatype RenderedButton = RenderedButton(
    variant: Variant,
    size: Size,
    loadingClass: bool,
    fullWidthClass: bool,
    nativeDisabled: bool,
    slots: seq<Slot>)

  predicate HasLeftIcon(slots: seq<Slot>) {
    exists k :: 0 <= k < |slots| && slots[k].LeftIconSlot?
  }

  predicate HasRightIcon(slots: seq<Slot>) {
    exists k :: 0 <= k < |slots| && slots[k].RightIconSlot?
  }

  /** Slot `i` comes before slot `j` whenever `i` satisfies `p` and `j` is the children. */
  predicate BeforeChildren(slots: seq<Slot>, p: Slot -> bool) {
    forall i, j :: 0 <= i < |slots| && 0 <= j < |slots| && p(slots[i]) && slots[j] == ChildrenSlot ==> i < j
  }

  /** The children of the native button: spinner or left icon, children, right icon. */
  function Slots(loading: bool, leftIcon: Option<Node>, rightIcon: Option<Node>): (s: seq<Slot>)
    ensures SpinnerSlot in s <==> loading
    ensures multiset(s)[ChildrenSlot] == 1
    // no slot renders twice
    ensures forall i, j :: 0 <= i < j < |s| ==> s[i] != s[j]
  {
    if loading then
      [SpinnerSlot, ChildrenSlot]
    else
      match (leftIcon, rightIcon)
      case (None, None) => [ChildrenSlot]
      case (Some(l), None) => [LeftIconSlot(l), ChildrenSlot]
      case (None, Some(r)) => [ChildrenSlot, RightIconSlot(r)]
      case (Some(l), Some(r)) => [LeftIconSlot(l), ChildrenSlot, RightIconSlot(r)]
  }

  /** Each icon slot is present exactly when not loading and that icon is given. */
  lemma SlotsIcons(loading: bool, leftIcon: Option<Node>, rightIcon: Option<Node>)
    ensures HasLeftIcon(Slots(loading, leftIcon, rightIcon)) <==> !loading && leftIcon.Some?
    ensures HasRightIcon(Slots(loading, leftIcon, rightIcon)) <==> !loading && rightIcon.Some?
  {
    var s := Slots(loading, leftIcon, rightIcon);
    if !loading && leftIcon.Some? {
      assert s[0].LeftIconSlot?;
    }
    if !loading && rightIcon.Some? {
      assert s[|s| - 1].RightIconSlot?;
    }
  }

  /**
   * The icon slots show the icons given, and the children sit after the
   * spinner or left icon and before the right icon.
   */
  lemma SlotsOrder(loading: bool, leftIcon: Option<Node>, rightIcon: Option<Node>)
    ensures var s := Slots(loading, leftIcon, rightIcon);
      && (forall k :: 0 <= k < |s| && s[k].LeftIconSlot? ==> Some(s[k].icon) == leftIcon)
      && (forall k :: 0 <= k < |s| && s[k].RightIconSlot? ==> Some(s[k].icon) == rightIcon)
      && BeforeChildren(s, (t: Slot) => t.SpinnerSlot? || t.LeftIconSlot?)
      && (forall i, j :: 0 <= i < |s| && 0 <= j < |s| && s[i].RightIconSlot? && s[j] == ChildrenSlot ==> j < i)
  {
  }

  /** Rendering a `Button` with the given props. */
  function Render(p: ButtonProps): (b: RenderedButton)
    // defaults of `buttonVariants` and of the destructured props
    ensures b.variant == p.variant.GetOr(Subtle)
    ensures b.size == p.size.GetOr(Md)
    ensures b.loadingClass <==> p.isLoading == Some(true)
    ensures b.fullWidthClass <==> p.fullWidth == Some(true)
    // `disabled || isLoading`
    ensures b.nativeDisabled <==> p.disabled == Some(true) || p.isLoading == Some(true)
    // the spinner and the icon slots
    ensures SpinnerSlot in b.slots <==> p.isLoading == Some(true)
    ensures HasLeftIcon(b.slots) <==> p.isLoading != Some(true) && p.leftIcon.Some?
    ensures HasRightIcon(b.slots) <==> p.isLoading != Some(true) && p.rightIcon.Some?
    // children always render, once
    ensures multiset(b.slots)[ChildrenSlot] == 1
    ensures b.slots == Slots(p.isLoading == Some(true), p.leftIcon, p.rightIcon)
  {
    var loading := p.isLoading.GetOr(false);
    SlotsIcons(loading, p.leftIcon, p.rightIcon);
    RenderedButton(
      p.variant.GetOr(Subtle),
      p.size.GetOr(Md),
      loading,
      p.fullWidth.GetOr(false),
      p.disabled.GetOr(false) || loading,
      Slots(loading, p.leftIcon, p.rightIcon))
  }

  /** With no props at all: a subtle, medium, enabled button holding only its children. */
  lemma DefaultButton()
    ensures Render(NoProps) == RenderedButton(Subtle, Md, false, false, false, [ChildrenSlot])
  {
  }

  /** Loading hides both icons and disables the button, whatever else is set. */
  lemma LoadingOverridesIcons(p: ButtonProps)
    requires p.isLoading == Some(true)
    ensures Render(p).slots == [SpinnerSlot, ChildrenSlot]
    ensures Render(p).nativeDisabled
  {
  }
}
