# vue-auth-layer: permission paths, modelled in Dafny

The repository gates the display of UI elements (tab panes, buttons, modals)
on a static permission table. Two hooks in `src/hooks/index.ts` do the work:

* `useProvideAuth(name)` lets a named permission layer (a tab, a dialog, ...)
  extend the scope path its descendants inherit: `ancestor-name`, or `name`
  alone when nothing non-empty was inherited; an unnamed layer provides nothing.
* `useAuth(auth, authText)` gives an element a label (the caller's `authText`,
  otherwise the trimmed text of its default slot), forms its auth path
  (`scope-label`, or `label` alone), and says whether to show it: always when
  auth control is off or no path can be formed, otherwise only when the
  route's entry of the permission table lists the path.

With the framework's dependency injection and slots replaced by explicit inputs
these are total, pure computations, and the model is functions and lemmas:

* `wrappers.dfy` — `Option`, standing for an optional JavaScript value.
* `js_string.dfy` — JavaScript truthiness of an optional string and
  `String.prototype.trim` over ECMAScript's WhiteSpace and LineTerminator code points.
* `slot_text.dfy` — virtual nodes and `getSlotChildrenText`, with a reference
  definition (the reachable string children, in document order).
* `auth_scope.dfy` — `useProvideAuth` and chains of nested layers.
* `auth.dfy` — the label, the `authPath` getter, the `show` predicate and `useAuth`.

The injected scope is an `Option<string>` (`None` when no ancestor provided one);
the scope a layer provides is a return value; a node's `default()` slot function is
the list of nodes it renders; the permission table is a `map<string, seq<string>>`
and the route is the constant `"routeNameExample"` that the hook hard-codes.

`useProvideAuth` tests whether the inherited scope's value is non-empty
(src/hooks/index.ts:27) while `useAuth` tests only whether a scope was injected
(src/hooks/index.ts:70). The two differ exactly on an injected empty scope
(`Auth.PresenceVsTruthiness`), which
the layers themselves never provide (`AuthScope.ScopeFromRootNeverEmpty`), so on
every scope built from the root an element's path is what one more layer named
by its label would provide (`Auth.AuthPathIsOneMoreLayer`).

## Model

| member | source | states |
|---|---|---|
| `JsString.Truthy` | src/hooks/index.ts:65 | the falsy optional strings are exactly `undefined` and the empty string, the values on which the `!x` tests of lines 23, 27, 65, 69 and 75 take their branch |
| `JsString.TrimStart` | src/hooks/index.ts:66 | the result is a suffix of the input, everything removed is whitespace, and it does not start with whitespace |
| `JsString.TrimEnd` | src/hooks/index.ts:66 | the result is a prefix of the input, everything removed is whitespace, and it does not end with whitespace |
| `JsString.Trim` | src/hooks/index.ts:66 | `trim` returns an infix of its input with only whitespace before and after it, and the result neither starts nor ends with whitespace |
| `JsString.TrimEmptyIff` | src/hooks/index.ts:66 | the trimmed text is empty exactly when the input is all whitespace |
| `JsString.TrimIdempotent` | src/hooks/index.ts:66 | trimming twice is trimming once |
| `SlotText.Text` | src/hooks/index.ts:43-61 | `getSlotChildrenText` returns the concatenation of all string children reachable through default slots, in document order |
| `SlotText.NodeText` | src/hooks/index.ts:53-60 | one node contributes the concatenation of the string children reachable from it through default slots (its own string, the text of what its default slot renders, or nothing) |
| `SlotText.TextAppend` | src/hooks/index.ts:52-61 | slot text is a concatenation homomorphism: the text of `xs + ys` is the text of `xs` followed by that of `ys` |
| `SlotText.TextSingleton` | src/hooks/index.ts:55-59 | a node with missing or unhandled children yields `""`, one with string children yields that string, one with a default slot yields the text of what the slot renders |
| `SlotText.TextWrap` | src/hooks/index.ts:57-58 | wrapping nodes in a component whose default slot renders them leaves the text unchanged, at any position |
| `SlotText.TextSkipsSilent` | src/hooks/index.ts:55-59 | a node with missing, empty-string or unhandled (e.g. array) children can be removed without changing the text |
| `SlotText.ConcatAppend` | src/hooks/index.ts:61 | joining with the empty separator distributes over list concatenation |
| `AuthScope.ProvideAuth` | src/hooks/index.ts:22-31 | an unnamed layer passes the inherited scope through; a named one always provides a non-empty scope, `ancestor-name` when the inherited scope is non-empty and `name` otherwise |
| `AuthScope.ScopeBelow` | src/hooks/index.ts:22-31 | nested `useProvideAuth` calls: a chain with no named layer passes the inherited scope through, and one with a named layer, or below a non-empty scope, yields a non-empty scope |
| `AuthScope.Names` | src/hooks/index.ts:23 | the names that take effect are all non-empty |
| `AuthScope.HyphenJoinFuse` | src/hooks/index.ts:27 | joining `a-b` in front of more parts is joining `a` and `b` separately |
| `AuthScope.HyphenJoinSnoc` | src/hooks/index.ts:70 | appending a part to a non-empty join adds "-" and that part |
| `AuthScope.ScopeBelowTruthy` | src/hooks/index.ts:26-28 | below a non-empty inherited scope `p`, a chain of layers yields `p` "-"-joined with their non-empty names |
| `AuthScope.NestingIsHyphenJoin` | src/hooks/index.ts:22-31 | from the root, a chain of layers yields no scope when no layer is named, and otherwise the "-"-join of the non-empty names from outermost to innermost |
| `AuthScope.UnnamedLayerTransparent` | src/hooks/index.ts:23 | removing an unnamed layer from anywhere in a chain changes no scope below it |
| `AuthScope.ScopeBelowSnoc` | src/hooks/index.ts:26-30 | adding an inner layer applies one more composition step to the scope |
| `AuthScope.ScopeFromRootNeverEmpty` | src/hooks/index.ts:26-28 | a scope the layers build from the root is absent or non-empty |
| `AuthScope.HyphenJoinNonEmpty` | src/hooks/index.ts:27 | a join whose first part is non-empty is non-empty |
| `Auth.Label` | src/hooks/index.ts:64-66 | a non-empty `authText` is the label, untrimmed; otherwise the label is absent exactly when there is no default slot, and with a default slot it is the trimmed concatenation of the slot's reachable string children, which neither starts nor ends with whitespace |
| `Auth.AuthPath` | src/hooks/index.ts:68-71 | the path exists exactly when the label is non-empty, is then non-empty, is the label alone when no scope was injected, and otherwise the injected scope, a "-" and the label |
| `Auth.Show` | src/hooks/index.ts:72-77 | `show` holds when auth control is off or the path is absent; otherwise it holds exactly when the route's entry exists and contains the path, and fails when the route has no entry |
| `Auth.UseAuth` | src/hooks/index.ts:63-82 | a path is returned exactly when a non-empty label is derived, it is the path `AuthPath` forms from the injected scope and that label, and the element is hidden exactly when auth control is on, there is a path, and the route has no entry or its entry lacks the path |
| `Auth.PermissiveWithoutLabel` | src/hooks/index.ts:64-77 | with no `authText` and no default slot, or one whose text is all whitespace, there is no path and the element is shown whatever the table |
| `Auth.SlotTextYieldsPath` | src/hooks/index.ts:64-71 | with no `authText`, a default slot with some non-whitespace text always yields a path |
| `Auth.ShowMonotone` | src/hooks/index.ts:74-76 | adding paths to the route's entry (or creating it) never turns `show` from true to false |
| `Auth.GrantingShows` | src/hooks/index.ts:76 | an element whose path is listed in its route's entry is shown |
| `Auth.ShowIgnoresOtherRoutes` | src/hooks/index.ts:76 | tables that agree on the route's entry give the same `show` |
| `Auth.AuthPathUnderLayers` | src/hooks/index.ts:22-71 | an element labelled `l` below a chain of layers from the root has as path the "-"-join of the layers' non-empty names followed by `l` |
| `Auth.AuthPathIsOneMoreLayer` | src/hooks/index.ts:26-70 | on every scope the layers build from the root, an element's path equals the scope one more layer named by its label would provide |
| `Auth.EmptyInjectedScopeDiffers` | src/hooks/index.ts:26-70 | on an injected empty scope the two hooks differ: `useAuth` gives `-a`, `useProvideAuth` gives `a` |
| `Auth.PresenceVsTruthiness` | src/hooks/index.ts:26-70 | for a non-empty label, the path `useAuth` forms equals the scope `useProvideAuth` would provide exactly when the injected scope is not the empty string |
| `Auth.SlotLabelUnderLayers` | src/hooks/index.ts:22-71 | with no `authText` and a default slot whose trimmed text is non-empty, an element below a chain of layers from the root gets as path the "-"-join of the layers' non-empty names followed by that trimmed text |

## Left out

- `src/main.ts`: application bootstrap and component registration; it has no logic.
- The Vue machinery (`inject`, `provide`, `toRef`, `toValue`, `unref`, `useSlots`): the
  injected scope is an input and the provided scope a result. The source captures a layer's
  `name`, the `auth` flag (read once with `toValue`), `authText` and the slot text once at setup
  (src/hooks/index.ts:22, 63-66), so its getters only re-read injected refs whose values derive
  from those captured constants; the model evaluates each getter once on those inputs.
- The permission data module `../data/auth` is not part of this model; the table is a parameter.
- The `default()` slot function is modelled by the nodes it renders, so it is deterministic and side-effect free.
- Child shapes the extraction declines to handle (arrays of nodes, objects without a callable
  `default`) are one constructor; other node fields are left out since the text never reads them.
- `Auth.Show`: the source's `show` can be `undefined` when the route has no entry; the model returns `false`, the same falsy outcome.
- `JsString.IsWhiteSpace`: follows the ECMAScript WhiteSpace and LineTerminator sets with the
  space separators of current Unicode; JavaScript strings are UTF-16 code units while a Dafny
  `char` is a Unicode scalar value, so lone surrogates are not modelled.
