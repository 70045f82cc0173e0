/** The few JavaScript value semantics the chat relay and its clients rely on:
    optional fields, thrown errors, JSON values with their truthiness, and
    `String.prototype.trim`. */
module Js {

  /** A field that may be absent (`undefined`). */
  datatype Option<+T> = None | Some(value: T)

  /** A computation that returns a value or throws. */
  datatype Result<+R, +E> = Success(value: R) | Failure(error: E)

  /** A JSON value as a handler observes it once `JSON.parse` has produced it.
      Arrays and objects are not looked into; `Compound(id, toStringThrows)`
      stands for one of them, `id` being its identity and `toStringThrows`
      saying whether converting it to a string throws a TypeError, as it
      does for `{"toString": 1}`, `{"valueOf": 1, "toString": 1}` or an
      array holding such an object. Numbers are integers here. */
  datatype Value =
    | Str(s: string)
    | Num(n: int)
    | Bool(b: bool)
    | Null
    | Compound(id: nat, toStringThrows: bool)

  /** JavaScript truthiness: `""`, `0`, `false` and `null` are falsy; every
      array and object is truthy. */
  predicate Truthy(v: Value)
  {
    match v
    case Str(s) => s != ""
    case Num(n) => n != 0
    case Bool(b) => b
    case Null => false
    case Compound(_, _) => true
  }

  /** Converting `v` to a string, as a template literal `${v}` does, throws.
      Strings, numbers, booleans and `null` always convert. */
  predicate ConversionThrows(v: Value)
  {
    v.Compound? && v.toStringThrows
  }

  /** Truthiness of a field that may be `undefined`. */
  predicate TruthyField(f: Option<Value>)
  {
    f.Some? && Truthy(f.value)
  }

  /** `a || b` for a string field `a` that may be `undefined`. */
  function OrElse(a: Option<string>, b: string): (r: string)
    ensures r == b || (a.Some? && r == a.value)
    ensures r == b <==> a == None || a.value == "" || a.value == b
  {
    if a.Some? && a.value != "" then a.value else b
  }

  /** The characters `String.prototype.trim` strips: WhiteSpace and
      LineTerminator of the ECMAScript grammar (TAB, VT, FF, SP, NBSP, ZWNBSP,
      the Zs category, LF, CR, LS, PS). */
  predicate IsWhitespace(c: char)
  {
    || c == '\t' || c == '\n' || c == '\U{000B}' || c == '\U{000C}' || c == '\r'
    || c == ' ' || c == '\U{00A0}' || c == '\U{1680}'
    || ('\U{2000}' <= c <= '\U{200A}')
    || c == '\U{2028}' || c == '\U{2029}' || c == '\U{202F}' || c == '\U{205F}'
    || c == '\U{3000}' || c == '\U{FEFF}'
  }

  /** `s` with its leading whitespace removed: a suffix of `s` that starts
      with a non-whitespace character, if it is not empty. */
  function TrimStart(s: string): (r: string)
    ensures |r| <= |s| && r == s[|s| - |r|..]
    ensures forall k :: 0 <= k < |s| - |r| ==> IsWhitespace(s[k])
    ensures r != [] ==> !IsWhitespace(r[0])
  {
    if s != [] && IsWhitespace(s[0]) then TrimStart(s[1..]) else s
  }

  /** `s` with its trailing whitespace removed: a prefix of `s` that ends
      with a non-whitespace character, if it is not empty. */
  function TrimEnd(s: string): (r: string)
    ensures |r| <= |s| && r == s[..|r|]
    ensures forall k :: |r| <= k < |s| ==> IsWhitespace(s[k])
    ensures r != [] ==> !IsWhitespace(r[|r| - 1])
  {
    if s != [] && IsWhitespace(s[|s| - 1]) then TrimEnd(s[..|s| - 1]) else s
  }

  /** `String.prototype.trim`. */
  function Trim(s: string): (r: string)
  {
    TrimEnd(TrimStart(s))
  }

  /** `s[i..j]` is what is left of `s` between leading whitespace `s[..i]`
      and trailing whitespace `s[j..]`. */
  ghost predicate BetweenBlanks(s: string, i: int, j: int)
  {
    && 0 <= i <= j <= |s|
    && (forall k :: 0 <= k < i ==> IsWhitespace(s[k]))
    && (forall k :: j <= k < |s| ==> IsWhitespace(s[k]))
  }

  /** The trimmed string is the slice of `s` between the leading and the
      trailing whitespace, and it neither starts nor ends with whitespace. */
  lemma TrimIsSlice(s: string)
    ensures exists i, j :: BetweenBlanks(s, i, j) && Trim(s) == s[i..j]
    ensures Trim(s) != [] ==> !IsWhitespace(Trim(s)[0]) && !IsWhitespace(Trim(s)[|Trim(s)| - 1])
  {
    var t := TrimStart(s);
    var r := TrimEnd(t);
    var i := |s| - |t|;
    var j := i + |r|;
    assert Trim(s) == s[i..j] by {
      assert t == s[i..];
      assert r == t[..|r|];
    }
    assert BetweenBlanks(s, i, j) by {
      forall k | j <= k < |s| ensures IsWhitespace(s[k]) {
        assert s[k] == t[k - i];
      }
    }
    if r != [] {
      assert r[0] == t[0];
    }
  }

  /** `s.trim() === ''` holds exactly when every character of `s` is
      whitespace. */
  lemma TrimEmptyIffBlank(s: string)
    ensures Trim(s) == "" <==> forall k :: 0 <= k < |s| ==> IsWhitespace(s[k])
  {
    var t := TrimStart(s);
    if t != [] {
      assert t[0] == s[|s| - |t|];
    }
  }

  /** Trimming twice is trimming once. */
  lemma TrimIdempotent(s: string)
    ensures Trim(Trim(s)) == Trim(s)
  {
    var r := Trim(s);
    if r != [] {
      TrimIsSlice(s);
      assert TrimStart(r) == r;
      assert TrimEnd(r) == r;
    }
  }
}
