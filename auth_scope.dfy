/** Scope-path composition of `useProvideAuth` (src/hooks/index.ts): every
    named permission layer extends the path its descendants inherit. */
module AuthScope {
  import opened Wrappers
  import opened JsString

  /** The scope a layer's descendants see, given the scope the layer itself
      inherits (`None` when no ancestor provided one) and the layer's optional name.
      An unnamed layer provides nothing, so the inherited scope passes through. */
  function ProvideAuth(inherited: Option<string>, name: Option<string>): (provided: Option<string>)
    ensures !Truthy(name) ==> provided == inherited
    ensures Truthy(name) ==> Truthy(provided)
    ensures Truthy(name) && Truthy(inherited) ==> provided.value == inherited.value + "-" + name.value
    ensures Truthy(name) && !Truthy(inherited) ==> provided.value == name.value
  {
    if !Truthy(name) then inherited
    else if Truthy(inherited) then Some(inherited.value + "-" + name.value)
    else Some(name.value)
  }

  /** The scope below a chain of layers listed from outermost to innermost. */
  function ScopeBelow(inherited: Option<string>, layers: seq<Option<string>>): (scope: Option<string>)
    ensures Names(layers) == [] ==> scope == inherited
    ensures Names(layers) != [] || Truthy(inherited) ==> Truthy(scope)
    decreases |layers|
  {
    if layers == [] then inherited
    else ScopeBelow(ProvideAuth(inherited, layers[0]), layers[1..])
  }

  /** The non-empty names of a chain of layers, in order. */
  function Names(layers: seq<Option<string>>): (names: seq<string>)
    ensures forall i :: 0 <= i < |names| ==> names[i] != ""
  {
    if layers == [] then []
    else (if Truthy(layers[0]) then [layers[0].value] else []) + Names(layers[1..])
  }

  /** Joins strings with the separator "-". */
  function HyphenJoin(parts: seq<string>): (joined: string)
    decreases |parts|
  {
    if parts == [] then ""
    else if |parts| == 1 then parts[0]
    else parts[0] + "-" + HyphenJoin(parts[1..])
  }

  lemma HyphenJoinFuse(a: string, b: string, rest: seq<string>)
    ensures HyphenJoin([a + "-" + b] + rest) == HyphenJoin([a, b] + rest)
  {
    assert ([a, b] + rest)[1..] == [b] + rest;
    assert ([a + "-" + b] + rest)[1..] == rest;
    assert ([b] + rest)[1..] == rest;
  }

  /** Appending a part to a non-empty join adds "-" and that part. */
  lemma {:induction false} HyphenJoinSnoc(parts: seq<string>, last: string)
    requires parts != []
    ensures HyphenJoin(parts + [last]) == HyphenJoin(parts) + "-" + last
    decreases |parts|
  {
    if |parts| == 1 {
      assert (parts + [last])[1..] == [last];
    } else {
      assert (parts + [last])[1..] == parts[1..] + [last];
      HyphenJoinSnoc(parts[1..], last);
    }
  }

  /** Below a non-empty inherited scope `p`, the scope is `p` joined with the
      names of the layers. */
  lemma {:induction false} ScopeBelowTruthy(p: string, layers: seq<Option<string>>)
    requires p != ""
    ensures ScopeBelow(Some(p), layers) == Some(HyphenJoin([p] + Names(layers)))
    decreases |layers|
  {
    if layers == [] {
      assert [p] + Names(layers) == [p];
    } else if Truthy(layers[0]) {
      var n := layers[0].value;
      ScopeBelowTruthy(p + "-" + n, layers[1..]);
      HyphenJoinFuse(p, n, Names(layers[1..]));
      assert [p] + Names(layers) == [p, n] + Names(layers[1..]);
    } else {
      ScopeBelowTruthy(p, layers[1..]);
      assert Names(layers) == Names(layers[1..]);
    }
  }

  /** Nesting equals hyphen-joining: from the root, the scope below a chain of
      layers is absent when no layer is named, and otherwise the "-"-join of the
      non-empty names from outermost to innermost. */
  lemma {:induction false} NestingIsHyphenJoin(layers: seq<Option<string>>)
    ensures ScopeBelow(None, layers) ==
              if Names(layers) == [] then None else Some(HyphenJoin(Names(layers)))
    decreases |layers|
  {
    if layers != [] {
      if Truthy(layers[0]) {
        var n := layers[0].value;
        ScopeBelowTruthy(n, layers[1..]);
        assert Names(layers) == [n] + Names(layers[1..]);
      } else {
        NestingIsHyphenJoin(layers[1..]);
        assert Names(layers) == Names(layers[1..]);
      }
    }
  }

  /** Unnamed layers are transparent: removing them changes no scope. */
  lemma {:induction false} UnnamedLayerTransparent(inherited: Option<string>, xs: seq<Option<string>>,
                                                    name: Option<string>, ys: seq<Option<string>>)
    requires !Truthy(name)
    ensures ScopeBelow(inherited, xs + [name] + ys) == ScopeBelow(inherited, xs + ys)
    decreases |xs|
  {
    if xs == [] {
      assert xs + [name] + ys == [name] + ys;
      assert ([name] + ys)[1..] == ys;
      assert xs + ys == ys;
    } else {
      assert (xs + [name] + ys)[1..] == xs[1..] + [name] + ys;
      assert (xs + ys)[1..] == xs[1..] + ys;
      UnnamedLayerTransparent(ProvideAuth(inherited, xs[0]), xs[1..], name, ys);
    }
  }

  /** Adding one more inner layer is one more `ProvideAuth` step. */
  lemma {:induction false} ScopeBelowSnoc(inherited: Option<string>, layers: seq<Option<string>>,
                                          name: Option<string>)
    ensures ScopeBelow(inherited, layers + [name]) == ProvideAuth(ScopeBelow(inherited, layers), name)
    decreases |layers|
  {
    if layers == [] {
      assert layers + [name] == [name];
    } else {
      assert (layers + [name])[1..] == layers[1..] + [name];
      ScopeBelowSnoc(ProvideAuth(inherited, layers[0]), layers[1..], name);
    }
  }

  /** A scope that the layers themselves build from the root is either absent
      or non-empty: `useProvideAuth` never provides the empty string. */
  lemma {:induction false} ScopeFromRootNeverEmpty(layers: seq<Option<string>>)
    ensures ScopeBelow(None, layers) == None || Truthy(ScopeBelow(None, layers))
  {
    NestingIsHyphenJoin(layers);
    var names := Names(layers);
    if names != [] {
      HyphenJoinNonEmpty(names);
    }
  }

  lemma {:induction false} HyphenJoinNonEmpty(parts: seq<string>)
    requires parts != [] && parts[0] != ""
    ensures HyphenJoin(parts) != ""
  {
    if |parts| > 1 {
      assert |HyphenJoin(parts)| >= |parts[0]|;
    }
  }
}
