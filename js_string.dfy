/** The two pieces of JavaScript string semantics the hooks rely on:
    truthiness of an optional string and `String.prototype.trim`. */
module JsString {
  import opened Wrappers

  /** An optional string is truthy when it is present and not the empty string
      (`undefined` and `""` are both falsy). */
  predicate Truthy(o: Option<string>)
    ensures !Truthy(o) <==> o == None || o == Some("")
  {
    o.Some? && o.value != ""
  }

  /** The code points that `trim` removes: ECMAScript's WhiteSpace (TAB, VT, FF,
      ZWNBSP and every space separator of category Zs) and LineTerminator
      (LF, CR, LS, PS). */
  predicate IsWhiteSpace(c: char) {
    c == '\t' || c == '\U{000B}' || c == '\U{000C}' || c == ' ' || c == '\U{00A0}'
    || c == '\U{FEFF}' || c == '\U{1680}' || ('\U{2000}' <= c <= '\U{200A}')
    || c == '\U{202F}' || c == '\U{205F}' || c == '\U{3000}'
    || c == '\n' || c == '\r' || c == '\U{2028}' || c == '\U{2029}'
  }

  predicate AllWhiteSpace(s: string) {
    forall i :: 0 <= i < |s| ==> IsWhiteSpace(s[i])
  }

  /** Drops the longest whitespace prefix: what is left is a suffix of `s`,
      everything dropped is whitespace, and what is left does not start with whitespace. */
  function TrimStart(s: string): (r: string)
    ensures |r| <= |s| && r == s[|s| - |r|..]
    ensures AllWhiteSpace(s[..|s| - |r|])
    ensures r != "" ==> !IsWhiteSpace(r[0])
  {
    if s != "" && IsWhiteSpace(s[0]) then
      var r := TrimStart(s[1..]);
      assert s[..|s| - |r|] == [s[0]] + s[1..][..|s| - 1 - |r|];
      r
    else
      assert s[..0] == [];
      s
  }

  /** Drops the longest whitespace suffix: what is left is a prefix of `s`,
      everything dropped is whitespace, and what is left does not end with whitespace. */
  function TrimEnd(s: string): (r: string)
    ensures |r| <= |s| && r == s[..|r|]
    ensures AllWhiteSpace(s[|r|..])
    ensures r != "" ==> !IsWhiteSpace(r[|r| - 1])
  {
    if s != "" && IsWhiteSpace(s[|s| - 1]) then
      var r := TrimEnd(s[..|s| - 1]);
      assert s[|r|..] == s[..|s| - 1][|r|..] + [s[|s| - 1]];
      r
    else
      assert s[|s|..] == [];
      s
  }

  /** `String.prototype.trim`: the result is the infix of `s` left after removing
      a whitespace prefix and a whitespace suffix, and it neither starts nor ends
      with whitespace. */
  function Trim(s: string): (r: string)
    ensures exists i, j :: 0 <= i <= j <= |s| && r == s[i..j]
                           && AllWhiteSpace(s[..i]) && AllWhiteSpace(s[j..])
    ensures r != "" ==> !IsWhiteSpace(r[0]) && !IsWhiteSpace(r[|r| - 1])
  {
    var t := TrimStart(s);
    var r := TrimEnd(t);
    var i := |s| - |t|;
    var j := i + |r|;
    assert r == s[i..j];
    assert AllWhiteSpace(s[..i]);
    assert s[j..] == t[|r|..];
    assert AllWhiteSpace(s[j..]);
    r
  }

  /** Trimming yields the empty string exactly when the input is all whitespace. */
  lemma {:induction false} TrimEmptyIff(s: string)
    ensures Trim(s) == "" <==> AllWhiteSpace(s)
  {
    var t := TrimStart(s);
    if t != "" {
      // t starts with a non-whitespace character, which TrimEnd keeps
      assert !IsWhiteSpace(s[|s| - |t|]);
    } else {
      assert s[..|s|] == s;
    }
  }

  /** Trimming an already trimmed string changes nothing. */
  lemma TrimIdempotent(s: string)
    ensures Trim(Trim(s)) == Trim(s)
  {
  }
}
