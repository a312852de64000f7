/** `useAuth` (src/hooks/index.ts): derives an element's label, its auth path
    and whether the element is shown, from explicit inputs that stand for the
    injected scope, the default slot and the permission table. */
module Auth {
  import opened Wrappers
  import opened JsString
  import opened SlotText
  import opened AuthScope

  /** The route whose entry of the permission table is consulted; the hook
      hard-codes it. */
  const RouteName: string := "routeNameExample"

  /** The permission table: route name to the list of permitted auth paths. */
  type PermissionTable = map<string, seq<string>>

  /** The label: the caller's `authText` when it is non-empty; otherwise the
      trimmed text of the default slot, or `None` when there is no default slot. */
  function Label(authText: Option<string>, defaultSlot: Option<seq<VNode>>): (caption: Option<string>)
    ensures Truthy(authText) ==> caption == authText
    ensures !Truthy(authText) ==> (caption.None? <==> defaultSlot.None?)
    ensures !Truthy(authText) && defaultSlot.Some? ==>
              caption == Some(Trim(Concat(Leaves(defaultSlot.value))))
    ensures !Truthy(authText) && caption.Some? && caption.value != "" ==>
              !IsWhiteSpace(caption.value[0]) && !IsWhiteSpace(caption.value[|caption.value| - 1])
  {
    if Truthy(authText) then authText
    else if defaultSlot.None? then None
    else Some(Trim(Text(defaultSlot.value)))
  }

  /** The auth path: absent when the label is empty or missing; otherwise the
      label appended with "-" to the inherited scope when a scope was injected
      (whatever its value), or the label alone. */
  function AuthPath(prev: Option<string>, caption: Option<string>): (path: Option<string>)
    ensures path.Some? <==> Truthy(caption)
    ensures path.Some? ==> path.value != ""
    ensures path.Some? && prev.None? ==> path.value == caption.value
    ensures path.Some? && prev.Some? ==>
              |path.value| == |prev.value| + 1 + |caption.value|
              && path.value[..|prev.value|] == prev.value
              && path.value[|prev.value|] == '-'
              && path.value[|prev.value| + 1..] == caption.value
  {
    if !Truthy(caption) then None
    else if prev.Some? then Some(prev.value + "-" + caption.value)
    else Some(caption.value)
  }

  /** Whether the element is shown: when auth control is off, when there is no
      auth path, or when the route's entry exists and lists the path. */
  function Show(authOn: bool, path: Option<string>, table: PermissionTable, route: string): (shown: bool)
    ensures !authOn ==> shown
    ensures !Truthy(path) ==> shown
    ensures authOn && Truthy(path) ==> (shown <==> route in table && path.value in table[route])
    ensures authOn && Truthy(path) && route !in table ==> !shown
  {
    !authOn || !Truthy(path) || (route in table && path.value in table[route])
  }

  /** What `useAuth` returns. */
  datatype AuthState = AuthState(show: bool, authPath: Option<string>)

  function UseAuth(authOn: bool, authText: Option<string>, prev: Option<string>,
                   defaultSlot: Option<seq<VNode>>, table: PermissionTable): (r: AuthState)
    ensures r.authPath.Some? <==> Truthy(Label(authText, defaultSlot))
    ensures r.authPath == AuthPath(prev, Label(authText, defaultSlot))
    ensures !r.show <==>
              authOn && r.authPath.Some?
              && (RouteName !in table || r.authPath.value !in table[RouteName])
  {
    var path := AuthPath(prev, Label(authText, defaultSlot));
    AuthState(Show(authOn, path, table, RouteName), path)
  }

  /** Permissive default: with auth control on, an element whose label cannot
      be derived (no `authText`, and no default slot or one whose text is all
      whitespace) is shown whatever the table says. */
  lemma PermissiveWithoutLabel(authOn: bool, authText: Option<string>, prev: Option<string>,
                               defaultSlot: Option<seq<VNode>>, table: PermissionTable)
    requires !Truthy(authText)
    requires defaultSlot.None? || AllWhiteSpace(Text(defaultSlot.value))
    ensures UseAuth(authOn, authText, prev, defaultSlot, table).authPath == None
    ensures UseAuth(authOn, authText, prev, defaultSlot, table).show
  {
    if defaultSlot.Some? {
      TrimEmptyIff(Text(defaultSlot.value));
    }
  }

  /** Conversely, a default slot with some non-whitespace text always yields an
      auth path when no `authText` is given. */
  lemma SlotTextYieldsPath(authOn: bool, authText: Option<string>, prev: Option<string>,
                           nodes: seq<VNode>, table: PermissionTable)
    requires !Truthy(authText)
    requires !AllWhiteSpace(Text(nodes))
    ensures UseAuth(authOn, authText, prev, Some(nodes), table).authPath.Some?
  {
    TrimEmptyIff(Text(nodes));
  }

  /** Table entries for one route can only grow from `t1` to `t2`. */
  predicate GrantsAtLeast(t1: PermissionTable, t2: PermissionTable, route: string) {
    route in t1 ==> route in t2 && forall p :: p in t1[route] ==> p in t2[route]
  }

  /** Monotonicity: adding paths to the route's entry never hides a shown element. */
  lemma ShowMonotone(authOn: bool, path: Option<string>, t1: PermissionTable, t2: PermissionTable,
                     route: string)
    requires GrantsAtLeast(t1, t2, route)
    requires Show(authOn, path, t1, route)
    ensures Show(authOn, path, t2, route)
  {
  }

  /** An element whose path is listed in its route's entry is shown. */
  lemma GrantingShows(authOn: bool, path: Option<string>, table: PermissionTable, route: string)
    requires route in table && path.Some? && path.value in table[route]
    ensures Show(authOn, path, table, route)
  {
  }

  /** Only the route's own entry matters. */
  lemma ShowIgnoresOtherRoutes(authOn: bool, path: Option<string>, t1: PermissionTable,
                               t2: PermissionTable, route: string)
    requires route in t1 <==> route in t2
    requires route in t1 ==> t1[route] == t2[route]
    ensures Show(authOn, path, t1, route) == Show(authOn, path, t2, route)
  {
  }

  /** End to end: an element labelled `caption` below a chain of layers (from the
      root) gets as auth path the "-"-join of the layers' non-empty names
      followed by its label. */
  lemma {:induction false} AuthPathUnderLayers(layers: seq<Option<string>>, caption: string)
    requires caption != ""
    ensures AuthPath(ScopeBelow(None, layers), Some(caption)) == Some(HyphenJoin(Names(layers) + [caption]))
  {
    NestingIsHyphenJoin(layers);
    var names := Names(layers);
    if names == [] {
      assert names + [caption] == [caption];
    } else {
      HyphenJoinSnoc(names, caption);
    }
  }

  /** `useAuth` tests whether a scope was injected, `useProvideAuth` whether it
      is non-empty; on every scope the layers build from the root the two agree,
      so an element's auth path is the scope one more layer named by its label
      would provide. */
  lemma {:induction false} AuthPathIsOneMoreLayer(layers: seq<Option<string>>, caption: Option<string>)
    requires Truthy(caption)
    ensures AuthPath(ScopeBelow(None, layers), caption) == ScopeBelow(None, layers + [caption])
  {
    ScopeBelowSnoc(None, layers, caption);
    ScopeFromRootNeverEmpty(layers);
  }

  /** One instance of `PresenceVsTruthiness`: an injected empty scope is kept
      by `useAuth` but ignored by `useProvideAuth`. */
  lemma EmptyInjectedScopeDiffers()
    ensures AuthPath(Some(""), Some("a")) == Some("-a")
    ensures ProvideAuth(Some(""), Some("a")) == Some("a")
  {
    assert "" + "-" + "a" == "-a";
  }

  /** For a non-empty label, the path `useAuth` forms and the scope
      `useProvideAuth` would provide differ exactly on an injected empty scope. */
  lemma PresenceVsTruthiness(prev: Option<string>, caption: Option<string>)
    requires Truthy(caption)
    ensures AuthPath(prev, caption) == ProvideAuth(prev, caption) <==> prev != Some("")
  {
    if prev == Some("") {
      var p := AuthPath(prev, caption).value;
      assert p[0] == '-';
      assert |p| == |caption.value| + 1;
    }
  }

  /** End to end for a slot-labelled element: with no `authText`, a default
      slot whose trimmed text is non-empty, below a chain of layers from the
      root, the auth path is the "-"-join of the layers' non-empty names
      followed by that trimmed text. */
  lemma {:induction false} SlotLabelUnderLayers(layers: seq<Option<string>>, authOn: bool,
                                                authText: Option<string>, nodes: seq<VNode>,
                                                table: PermissionTable)
    requires !Truthy(authText)
    requires Trim(Text(nodes)) != ""
    ensures UseAuth(authOn, authText, ScopeBelow(None, layers), Some(nodes), table).authPath
            == Some(HyphenJoin(Names(layers) + [Trim(Text(nodes))]))
  {
    AuthPathUnderLayers(layers, Trim(Text(nodes)));
  }
}
