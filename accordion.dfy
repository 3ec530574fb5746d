/**
 * The accordion's disclosure controller (packages/accordion/src/Accordion.tsx):
 * the next list of open item keys computed by an item's `toggle`, the
 * open/closed view of an item and its content, and the root component that
 * reconciles a caller-controlled value with its own retained state.
 */
module Accordion {
  import opened Wrappers

  /** The `type` prop: one open item at a time, or any number. */
  datatype AccordionType = Single | Multiple

  /** No key occurs twice. */
  predicate NoDup(s: seq<string>) {
    forall i, j :: 0 <= i < j < |s| ==> s[i] != s[j]
  }

  /** `r` is `s` with some elements deleted and the rest kept in order. */
  ghost predicate Subsequence(r: seq<string>, s: seq<string>)
    decreases |s|
  {
    if r == [] then true
    else if s == [] then false
    else (r[0] == s[0] && Subsequence(r[1..], s[1..])) || Subsequence(r, s[1..])
  }

  /** `openValues.filter((v) => v !== value)`. */
  function Without(s: seq<string>, x: string): (r: seq<string>)
    ensures x !in r
    ensures forall y :: y != x ==> multiset(r)[y] == multiset(s)[y]
    ensures forall y :: y in r <==> y in s && y != x
    decreases |s|
  {
    if s == [] then []
    else
      assert s == [s[0]] + s[1..];
      (if s[0] == x then [] else [s[0]]) + Without(s[1..], x)
  }

  /** Filtering keeps the survivors in their original order. */
  lemma {:induction false} WithoutIsSubsequence(s: seq<string>, x: string)
    ensures Subsequence(Without(s, x), s)
    decreases |s|
  {
    if s != [] {
      WithoutIsSubsequence(s[1..], x);
      var r := Without(s, x);
      if s[0] != x {
        assert r[0] == s[0] && r[1..] == Without(s[1..], x);
      } else {
        assert r == Without(s[1..], x);
      }
    }
  }

  /** Filtering a concatenation filters each part. */
  lemma {:induction false} WithoutAppend(a: seq<string>, b: seq<string>, x: string)
    ensures Without(a + b, x) == Without(a, x) + Without(b, x)
    decreases |a|
  {
    if a != [] {
      assert (a + b)[0] == a[0] && (a + b)[1..] == a[1..] + b;
      WithoutAppend(a[1..], b, x);
      calc {
        Without(a + b, x);
        (if a[0] == x then [] else [a[0]]) + Without(a[1..] + b, x);
        (if a[0] == x then [] else [a[0]]) + (Without(a[1..], x) + Without(b, x));
        Without(a, x) + Without(b, x);
      }
    } else {
      assert a + b == b;
    }
  }

  /** Filtering out an absent key changes nothing. */
  lemma {:induction false} WithoutAbsent(s: seq<string>, x: string)
    requires x !in s
    ensures Without(s, x) == s
    decreases |s|
  {
    if s != [] {
      WithoutAbsent(s[1..], x);
    }
  }

  /** Filtering keeps a duplicate-free list duplicate-free. */
  lemma {:induction false} WithoutNoDup(s: seq<string>, x: string)
    requires NoDup(s)
    ensures NoDup(Without(s, x))
    decreases |s|
  {
    if s != [] {
      WithoutNoDup(s[1..], x);
      var rest := Without(s[1..], x);
      assert s[0] !in s[1..];
      assert s[0] !in rest;
      if s[0] != x {
        assert Without(s, x) == [s[0]] + rest;
      }
    }
  }

  /** `isOpen`: an item is open when its key is in the open list. */
  function IsOpen(openValues: seq<string>, value: string): (open: bool)
    ensures open <==> exists i :: 0 <= i < |openValues| && openValues[i] == value
  {
    value in openValues
  }

  /** The list an enabled item's `toggle` hands to `onValueChange`. */
  function NextOpenValues(kind: AccordionType, openValues: seq<string>, value: string): (r: seq<string>)
    // toggling flips the item, under both types
    ensures IsOpen(r, value) <==> !IsOpen(openValues, value)
    // single: at most the toggled item is open afterwards
    ensures kind == Single ==> |r| <= 1 && forall k :: k in r ==> k == value
    // multiple: every other key keeps its membership and its number of occurrences
    ensures kind == Multiple ==> forall k :: k != value ==> multiset(r)[k] == multiset(openValues)[k]
    // multiple: opening appends the key after the old list
    ensures kind == Multiple && !IsOpen(openValues, value) ==> |r| == |openValues| + 1 && r[..|openValues|] == openValues && r[|openValues|] == value
    // multiple: closing only deletes, keeping the others in order
    ensures kind == Multiple && IsOpen(openValues, value) ==> Subsequence(r, openValues)
  {
    var isOpen := IsOpen(openValues, value);
    match kind
    case Single => if isOpen then [] else [value]
    case Multiple =>
      if isOpen then
        WithoutIsSubsequence(openValues, value);
        Without(openValues, value)
      else
        openValues + [value]
  }

  /** Single: opening a closed item replaces whatever was open. */
  lemma SingleOpenReplaces(openValues: seq<string>, value: string)
    requires !IsOpen(openValues, value)
    ensures NextOpenValues(Single, openValues, value) == [value]
  {
  }

  /** Single: reselecting an open item closes everything (the `collapsible` prop is not consulted). */
  lemma SingleReselectCollapses(openValues: seq<string>, value: string)
    requires IsOpen(openValues, value)
    ensures NextOpenValues(Single, openValues, value) == []
  {
  }

  /** Single: toggling the same closed item twice ends with nothing open. */
  lemma SingleToggleTwice(openValues: seq<string>, value: string)
    requires !IsOpen(openValues, value)
    ensures NextOpenValues(Single, NextOpenValues(Single, openValues, value), value) == []
  {
  }

  /** Multiple: toggling a closed item twice restores the list exactly. */
  lemma MultipleToggleTwice(openValues: seq<string>, value: string)
    requires !IsOpen(openValues, value)
    ensures NextOpenValues(Multiple, NextOpenValues(Multiple, openValues, value), value) == openValues
  {
    WithoutAppend(openValues, [value], value);
    WithoutAbsent(openValues, value);
    assert Without([value], value) == [];
  }

  /** Both types keep a duplicate-free open list duplicate-free. */
  lemma ToggleKeepsNoDup(kind: AccordionType, openValues: seq<string>, value: string)
    requires NoDup(openValues)
    ensures NoDup(NextOpenValues(kind, openValues, value))
  {
    if kind == Multiple && IsOpen(openValues, value) {
      WithoutNoDup(openValues, value);
    }
  }

  /** Multiple: toggles of two different keys open the same set of items in either order. */
  lemma MultipleTogglesCommute(openValues: seq<string>, a: string, b: string)
    requires a != b
    ensures forall k ::
      IsOpen(NextOpenValues(Multiple, NextOpenValues(Multiple, openValues, a), b), k) <==>
      IsOpen(NextOpenValues(Multiple, NextOpenValues(Multiple, openValues, b), a), k)
  {
  }

  /** `data-state` as the item and its content report it. */
  function DataState(isOpen: bool): (s: string)
    ensures s == "open" || s == "closed"
    ensures s == "open" <==> isOpen
  {
    if isOpen then "open" else "closed"
  }

  /** What an item shows: its `data-state`, the trigger's `aria-expanded`, and the content if rendered. */
  datatype ItemView = ItemView(dataState: string, ariaExpanded: bool, content: Option<string>)

  /** Rendering item `value` (with its content's `forceMount`) under the open list. */
  function RenderItem(openValues: seq<string>, value: string, forceMount: bool): (v: ItemView)
    ensures v.dataState == DataState(value in openValues)
    ensures v.dataState == "open" <==> value in openValues
    ensures v.ariaExpanded <==> value in openValues
    // content renders only when open or force-mounted, and then agrees with the item
    ensures v.content.Some? <==> value in openValues || forceMount
    ensures v.content.Some? ==> v.content.value == v.dataState
  {
    var isOpen := IsOpen(openValues, value);
    ItemView(DataState(isOpen), isOpen, if isOpen || forceMount then Some(DataState(isOpen)) else None)
  }

  /**
   * The `Accordion` root. `controlledValue` is the `value` prop of the latest
   * render; `uncontrolledValue` is the retained state, seeded by
   * `defaultValue` at mount. `notifications` records every call of the
   * caller's `onValueChange`, which is called only when one was supplied.
   */
  class AccordionRoot {
    var kind: AccordionType
    var controlledValue: Option<seq<string>>
    var collapsible: bool
    var hasListener: bool
    var uncontrolledValue: seq<string>
    var notifications: seq<seq<string>>

    /** Mounting with the props of the first render. */
    constructor (kind: Option<AccordionType>, controlledValue: Option<seq<string>>,
                 defaultValue: Option<seq<string>>, collapsible: Option<bool>, hasListener: bool)
      ensures this.kind == kind.GetOr(Single)
      ensures this.controlledValue == controlledValue
      ensures this.collapsible == collapsible.GetOr(true)
      ensures this.hasListener == hasListener
      ensures uncontrolledValue == defaultValue.GetOr([])
      ensures notifications == []
    {
      this.kind := kind.GetOr(Single);
      this.controlledValue := controlledValue;
      this.collapsible := collapsible.GetOr(true);
      this.hasListener := hasListener;
      uncontrolledValue := defaultValue.GetOr([]);
      notifications := [];
    }

    predicate IsControlled()
      reads this
    {
      controlledValue.Some?
    }

    /** The open list the items see. */
    function Value(): (v: seq<string>)
      reads this
      ensures IsControlled() ==> v == controlledValue.value
      ensures !IsControlled() ==> v == uncontrolledValue
    {
      if IsControlled() then controlledValue.value else uncontrolledValue
    }

    /** A later render with new props; the retained state and `defaultValue` stay as they were. */
    method Rerender(kind: Option<AccordionType>, controlledValue: Option<seq<string>>,
                    collapsible: Option<bool>, hasListener: bool)
      modifies this
      ensures this.kind == kind.GetOr(Single)
      ensures this.controlledValue == controlledValue
      ensures this.collapsible == collapsible.GetOr(true)
      ensures this.hasListener == hasListener
      ensures uncontrolledValue == old(uncontrolledValue)
      ensures notifications == old(notifications)
    {
      this.kind := kind.GetOr(Single);
      this.controlledValue := controlledValue;
      this.collapsible := collapsible.GetOr(true);
      this.hasListener := hasListener;
    }

    /** `handleValueChange`: store only when uncontrolled, always notify. */
    method HandleValueChange(newValue: seq<string>)
      modifies this`uncontrolledValue, this`notifications
      ensures uncontrolledValue == if IsControlled() then old(uncontrolledValue) else newValue
      ensures Value() == if IsControlled() then old(Value()) else newValue
      ensures notifications == old(notifications) + if hasListener then [newValue] else []
    {
      if !IsControlled() {
        uncontrolledValue := newValue;
      }
      if hasListener {
        notifications := notifications + [newValue];
      }
    }

    /** An item's `toggle`, as its trigger's click runs it. */
    method Toggle(value: string, disabled: bool)
      modifies this`uncontrolledValue, this`notifications
      // a disabled item does nothing
      ensures disabled ==> uncontrolledValue == old(uncontrolledValue) && notifications == old(notifications)
      // otherwise one notification carrying the computed list, stored only when uncontrolled
      ensures !disabled ==>
        var next := NextOpenValues(kind, old(Value()), value);
        && notifications == old(notifications) + (if hasListener then [next] else [])
        && uncontrolledValue == (if IsControlled() then old(uncontrolledValue) else next)
        && Value() == (if IsControlled() then old(Value()) else next)
    {
      if disabled {
        return;
      }
      var next := NextOpenValues(kind, Value(), value);
      HandleValueChange(next);
    }
  }

  /** Single type: open item-2 over item-1, then close it again. */
  method SingleWalkthrough()
  {
    var single := new AccordionRoot(None, None, Some(["item-1"]), None, true);
    single.Toggle("item-2", false);
    assert single.Value() == ["item-2"];
    single.Toggle("item-2", false);
    assert single.Value() == [];
    assert single.notifications == [["item-2"], []];
  }

  /** Multiple type: open faq-3 beside faq-1 and faq-2, then close faq-1. */
  method MultipleWalkthrough()
  {
    var start := ["faq-1", "faq-2"];
    var multiple := new AccordionRoot(Some(Multiple), None, Some(start), None, true);
    assert !IsOpen(start, "faq-3");
    multiple.Toggle("faq-3", false);
    var three := ["faq-1", "faq-2", "faq-3"];
    assert multiple.Value() == start + ["faq-3"] == three;
    assert IsOpen(three, "faq-1");
    multiple.Toggle("faq-1", false);
    WithoutAbsent(three[1..], "faq-1");
    assert Without(three, "faq-1") == Without(three[1..], "faq-1") == ["faq-2", "faq-3"];
    assert multiple.Value() == ["faq-2", "faq-3"];
  }

  /** Controlled: the caller does not feed the new list back, so nothing visible changes. */
  method ControlledWalkthrough()
  {
    var controlled := new AccordionRoot(None, Some(["a"]), None, None, true);
    controlled.Toggle("b", false);
    assert controlled.Value() == ["a"] && controlled.notifications == [["b"]];
    controlled.Toggle("a", true);
    assert controlled.notifications == [["b"]];
  }
}
