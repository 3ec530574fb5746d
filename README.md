# Luna disclosure controller — a Dafny model

This project models the logic inside the Luna React component library: the
accordion's open-set controller, the alert dialog's open flag and body
scroll lock, the derived state of `Button`, and the `getContrastColor`
helper. Markup, styling and the React runtime are outside the model.

- `wrappers.dfy` — `Option`, standing for a prop or argument that may be `undefined`.
- `contrast.dfy` (`Contrast`) — `getContrastColor` and the substring test behind it.
- `button.dfy` (`Button`) — defaults, class flags, native `disabled` and slot layout of `Button`.
- `accordion.dfy` (`Accordion`) — covers three things:
  - the next open list computed by an item's `toggle`;
  - the item and content view (`data-state`, `aria-expanded`, conditional content);
  - the root as a class. Its retained field `uncontrolledValue` is written only when uncontrolled, and it keeps a log of `onValueChange` calls.
- `alert_dialog.dfy` (`AlertDialog`) — covers four things:
  - the root as a class with the retained `uncontrolledOpen` flag;
  - the open/close request made by each event (trigger, Action, Cancel, overlay click, key press);
  - the scroll lock's save/set/restore of the page body's `overflow`, as a `Body` object plus the cleanup's saved snapshot;
  - the Cancel button's `ghost` variant default, passed on to `Button`.

React renders and effects are modelled as method calls:
- A handler runs as a method call.
- A later render with new props is `Rerender`.
- The effect that depends on `open` is `CommitEffects`, which runs after every change.
- Calls into caller code (`onValueChange`, `onOpenChange`, a button's own `onClick`) are recorded in order in a log field.

Where a prop's own documentation (packages/accordion/src/Accordion.tsx:47 and 67-68, packages/alert-dialog/src/AlertDialog.tsx:193-195) and the code differ, the model follows the code:
- The `collapsible` prop is stored but never read. Reselecting the open item in `single` mode always closes it (`Accordion.SingleReselectCollapses`).
- The dialog's `closeOnClickOutside` prop (default `false`) is stored but never read. An overlay click closes whenever the overlay is shown (`AlertDialog.RequestedOpen`).
- In `single` mode a caller-controlled value may still hold several keys. The at-most-one rule holds only for lists that `toggle` computes.

The model also follows the code where no documentation speaks: the open list is ordered and may repeat a key, and each dialog restores only its own saved `overflow`, with no count of open dialogs.

## Model

| member | source | states |
|---|---|---|
| Contrast.Includes | src/lib/utils.ts:9 | The search returns true exactly when the needle occurs at some position of the string. |
| Contrast.GetContrastColor | src/lib/utils.ts:7-10 | The result is always "light" or "dark". It is "light" exactly when the input contains "dark". |
| Contrast.EmptyIsDark | src/lib/utils.ts:9 | The empty string gives "dark". |
| Contrast.NoLowerDIsDark | src/lib/utils.ts:9 | The match is case-sensitive: an input without a lower-case 'd' (e.g. "Dark", "DARK") gives "dark". |
| Contrast.CapitalDarkIsDark | src/lib/utils.ts:9 | "Dark" gives "dark". |
| Contrast.LightIsMonotone | src/lib/utils.ts:9 | Any string containing a "light" input as a substring also gives "light". |
| Button.Slots | packages/button/src/Button.tsx:90-101 | The spinner renders exactly when loading. Children render exactly once, and no slot renders more than once. |
| Button.SlotsIcons | packages/button/src/Button.tsx:91-101 | Each icon slot renders exactly when not loading and that icon is given. |
| Button.SlotsOrder | packages/button/src/Button.tsx:90-101 | Each icon slot shows the icon given for it. Children come after the spinner or left icon and before the right icon. |
| Button.Render | packages/button/src/Button.tsx:60-105 | Variant defaults to `subtle` and size to `md`. The `loading` and `fullWidth` flags are set exactly when those props are true. The native button is disabled exactly when `disabled` or `isLoading` is true. The slot rules of `Slots` apply. |
| Button.DefaultButton | packages/button/src/Button.tsx:25-28 | With no props: subtle, md, no class flags, enabled, only the children. |
| Button.LoadingOverridesIcons | packages/button/src/Button.tsx:87-101 | While loading, the slots are exactly spinner then children, and the button is disabled, whatever icons are given. |
| AlertDialog.CancelButtonProps | packages/alert-dialog/src/AlertDialog.tsx:364-379 | The Cancel button renders with the caller's variant, or `ghost` when none is given. Every other prop passes through unchanged. |
| Accordion.Without | packages/accordion/src/Accordion.tsx:175 | The filter removes every occurrence of the key. Each other key keeps its membership and its number of occurrences. |
| Accordion.WithoutIsSubsequence | packages/accordion/src/Accordion.tsx:175 | The filter result is a subsequence of the old list, so the survivors keep their original order. |
| Accordion.WithoutAppend | packages/accordion/src/Accordion.tsx:175 | Filtering a concatenation filters each part separately. |
| Accordion.WithoutAbsent | packages/accordion/src/Accordion.tsx:175 | Filtering out a key that is absent returns the list unchanged. |
| Accordion.WithoutNoDup | packages/accordion/src/Accordion.tsx:175 | Filtering keeps a duplicate-free list duplicate-free. |
| Accordion.IsOpen | packages/accordion/src/Accordion.tsx:163 | An item is open exactly when some position of the open list holds its key. |
| Accordion.NextOpenValues | packages/accordion/src/Accordion.tsx:165-179 | Every toggle flips the toggled item's open state. Single: the result has at most the toggled key. Multiple: other keys keep their occurrence counts; opening appends the key after the old list; closing only deletes, keeping the order. |
| Accordion.SingleOpenReplaces | packages/accordion/src/Accordion.tsx:168-171 | Single: toggling a closed item yields exactly `[value]`, whatever was open. |
| Accordion.SingleReselectCollapses | packages/accordion/src/Accordion.tsx:170 | Single: toggling an open item yields `[]`, and `collapsible` plays no part. |
| Accordion.SingleToggleTwice | packages/accordion/src/Accordion.tsx:170 | Single: toggling a closed item twice leaves nothing open. |
| Accordion.MultipleToggleTwice | packages/accordion/src/Accordion.tsx:174-176 | Multiple: toggling a closed item twice restores the old list exactly. |
| Accordion.ToggleKeepsNoDup | packages/accordion/src/Accordion.tsx:170-176 | Under both types, a duplicate-free open list stays duplicate-free. |
| Accordion.MultipleTogglesCommute | packages/accordion/src/Accordion.tsx:174-176 | Multiple: toggles of two different keys open the same items in either order. |
| Accordion.DataState | packages/accordion/src/Accordion.tsx:195 | `data-state` is "open" or "closed", and it is "open" exactly when the item is open. |
| Accordion.RenderItem | packages/accordion/src/Accordion.tsx:195-311 | The item's `data-state` is `DataState` of its membership ("open" when its key is in the open list, "closed" otherwise), and `aria-expanded` says open exactly then. Content renders exactly when open or `forceMount`, and then reports the same `data-state`. |
| Accordion.AccordionRoot.constructor | packages/accordion/src/Accordion.tsx:72-87 | Mounting applies the defaults: type `single`, `defaultValue` `[]`, `collapsible` true. The retained list is seeded from `defaultValue`. No notifications yet. |
| Accordion.AccordionRoot.Value | packages/accordion/src/Accordion.tsx:89-90 | The visible list is the controlled value when one is given, and otherwise the retained list. |
| Accordion.AccordionRoot.Rerender | packages/accordion/src/Accordion.tsx:72-90 | A later render takes the new props but leaves the retained list as it was. |
| Accordion.AccordionRoot.HandleValueChange | packages/accordion/src/Accordion.tsx:92-100 | The retained list is written only when uncontrolled, so a controlled visible value does not change. `onValueChange` receives the new list once, when supplied. |
| Accordion.AccordionRoot.Toggle | packages/accordion/src/Accordion.tsx:165-179 | A disabled item changes nothing and notifies nobody. Otherwise one notification carries `NextOpenValues` of the visible list. That list becomes visible only when uncontrolled. |
| AlertDialog.RequestedOpen | packages/alert-dialog/src/AlertDialog.tsx:125-370 | Only the trigger requests `true`, and it always does. Action and Cancel always request `false`. An overlay click requests `false` exactly when the overlay is shown, whatever `closeOnClickOutside` says. Escape requests `false` only while shown with `closeOnEscape`. Other keys request nothing. |
| AlertDialog.CallerCalls | packages/alert-dialog/src/AlertDialog.tsx:125-370 | A button runs the caller's own `onClick` once, when the caller supplied one. No other event runs caller code. |
| AlertDialog.AlertDialogRoot.ContentShown | packages/alert-dialog/src/AlertDialog.tsx:173-256 | Overlay and content are shown only while mounted and open. When closed they render nothing. |
| AlertDialog.AlertDialogRoot.EscapeListening | packages/alert-dialog/src/AlertDialog.tsx:221-231 | The `keydown` listener is registered exactly while the content is shown and `closeOnEscape` is true. It is never registered when closed or with `closeOnEscape` false. |
| AlertDialog.AlertDialogRoot.Open | packages/alert-dialog/src/AlertDialog.tsx:85-86 | `open` is the controlled flag when given, and otherwise the retained flag. |
| AlertDialog.AlertDialogRoot.constructor | packages/alert-dialog/src/AlertDialog.tsx:77-240 | Mounting applies the defaults: `defaultOpen` false, `closeOnEscape` true, `closeOnClickOutside` false. The retained flag is seeded from `defaultOpen`. If open on mount, the old `overflow` is saved and "hidden" set. |
| AlertDialog.AlertDialogRoot.HandleOpenChange | packages/alert-dialog/src/AlertDialog.tsx:88-96 | The retained flag is written only when uncontrolled. `onOpenChange` is called once with the requested value, when supplied. The scroll lock then follows the shown state. |
| AlertDialog.AlertDialogRoot.Dispatch | packages/alert-dialog/src/AlertDialog.tsx:125-370 | The caller's `onClick` is logged first. Then exactly the change `RequestedOpen` asks for is applied and notified. A key press closes exactly when the Escape listener is registered and the key is Escape. |
| AlertDialog.AlertDialogRoot.CommitEffects | packages/alert-dialog/src/AlertDialog.tsx:235-254 | The lock is held exactly while the content is shown. Acquiring saves the old `overflow` and sets "hidden". Releasing writes the saved value back. Otherwise the body is untouched. |
| AlertDialog.AlertDialogRoot.Rerender | packages/alert-dialog/src/AlertDialog.tsx:77-86 | A later render takes the new props but keeps the retained flag. The lock follows the new shown state. |
| AlertDialog.AlertDialogRoot.Unmount | packages/alert-dialog/src/AlertDialog.tsx:251-253 | Unmounting releases a held lock and restores the saved `overflow`. |
| AlertDialog.OpenThenClose | packages/alert-dialog/src/AlertDialog.tsx:236-253 | In an uncontrolled dialog, opening with the trigger and closing with any closing event leaves the body's `overflow` as it was. Each step logs one notification. |

## Left out

- React rendering, JSX markup, `forwardRef`/`useImperativeHandle` and `asChild` cloning: framework plumbing with no decision in it.
- The context-missing errors ("must be used within ..."): every part is modelled with its root passed explicitly, so there is no missing context.
- Portal mounting and `createPortal`: DOM I/O.
- Focus of the first focusable element when the dialog opens: a foreign DOM query and call.
- Registering and removing the `keydown` listener: only when it is registered (`EscapeListening`) and what a key press requests (`RequestedOpen`) are modelled.
- Caller props that override the component's own: `AccordionTrigger` and a standalone `AlertDialogOverlay` spread the caller's props after their own `onClick`, so a caller `onClick` replaces the toggle or the close. Caller `data-state` and `aria-expanded` likewise replace the computed values. `AccordionRoot.Toggle`, `RequestedOpen` and `RenderItem` model the components without such overrides.
- The accordion content's height animation: driven by `scrollHeight`, timers and animation frames.
- Class-string assembly (`cva`, `clsx`, `cn`): only the boolean inputs to it are modelled.
- Nested dialogs that close out of order: each dialog restores its own snapshot, and the model proves only the open-then-close pairing of one dialog.
- Several events handled before a re-render: React's handlers then see a stale open list. The model re-reads the current state on every event.
- Button.Render: a `null` variant or size (allowed by the variant library's types) gives no variant class in the source; the model has only omitted and given values, so it does not capture that case.
- Button.SlotsIcons: a falsy but present icon node (`0`, `""`, `false`) counts as present here. Only a missing icon counts as absent.
- The demo applications, build configuration and CSS type declarations.
