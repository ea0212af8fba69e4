/**
 * The slice of Python value semantics the catalog handlers rely on: decoded
 * JSON values, dict lookups with defaults, truthiness, `str()`, ASCII
 * `lower()` and `strip()`, `startswith`, substring tests and `split(",")`.
 */
module PyValues {

  /** A decoded JSON value, restricted to the kinds the catalog code inspects. */
  datatype Value = Str(s: string) | Bool(b: bool) | Null

  /** A decoded JSON object; a key that is absent is not in the map. */
  type Record = map<string, Value>

  /** The exceptions the handlers can raise; each one ends the request with HTTP 500. */
  datatype PyError = KeyError(key: string) | AttributeError(attr: string) | TypeError

  /** `r.get(k, default)` */
  function Get(r: Record, k: string, default: Value): Value {
    if k in r then r[k] else default
  }

  /** Python truthiness of a value: non-empty strings, `True`. */
  predicate Truthy(v: Value) {
    match v
    case Str(s) => s != ""
    case Bool(b) => b
    case Null => false
  }

  /** `a or b` */
  function Or(a: Value, b: Value): Value {
    if Truthy(a) then a else b
  }

  /** `str(v)`, also what an f-string interpolates. */
  function PyStr(v: Value): string {
    match v
    case Str(s) => s
    case Bool(b) => if b then "True" else "False"
    case Null => "None"
  }

  /** `aliases[i]` is the first of the fields `aliases` of `r` holding a truthy value. */
  predicate FirstTruthyAt(r: Record, aliases: seq<string>, i: int) {
    && 0 <= i < |aliases|
    && Truthy(Get(r, aliases[i], Null))
    && forall j :: 0 <= j < i ==> !Truthy(Get(r, aliases[j], Null))
  }

  /**
   * The first truthy value among the fields `aliases` of `r`, else `default`:
   * the chain `r.get(a0) or r.get(a1) or ... or default`.
   */
  function Resolve(r: Record, aliases: seq<string>, default: Value): (v: Value)
    ensures (forall i :: 0 <= i < |aliases| ==> !Truthy(Get(r, aliases[i], Null))) ==> v == default
    ensures forall i :: FirstTruthyAt(r, aliases, i) ==> v == Get(r, aliases[i], Null)
  {
    if aliases == [] then default
    else
      var tail := Resolve(r, aliases[1..], default);
      assert forall i :: FirstTruthyAt(r, aliases, i) && i > 0 ==> FirstTruthyAt(r, aliases[1..], i - 1) by {
        forall i | FirstTruthyAt(r, aliases, i) && i > 0
          ensures FirstTruthyAt(r, aliases[1..], i - 1)
        {
          forall j | 0 <= j < i - 1
            ensures !Truthy(Get(r, aliases[1..][j], Null))
          {
            assert aliases[1..][j] == aliases[j + 1];
          }
        }
      }
      assert forall j :: 1 <= j < |aliases| ==> aliases[j] == aliases[1..][j - 1];
      Or(Get(r, aliases[0], Null), tail)
  }

  // ---------------------------------------------------------------- lower()

  predicate IsUpper(c: char) {
    'A' <= c <= 'Z'
  }

  function LowerChar(c: char): char {
    if IsUpper(c) then (c as int + 32) as char else c
  }

  /** `s.lower()` on ASCII letters. */
  function Lower(s: string): (r: string)
    ensures |r| == |s|
    ensures forall i :: 0 <= i < |s| ==> r[i] == LowerChar(s[i])
    ensures forall i :: 0 <= i < |r| ==> !IsUpper(r[i])
  {
    if s == [] then [] else [LowerChar(s[0])] + Lower(s[1..])
  }

  lemma LowerIdempotent(s: string)
    ensures Lower(Lower(s)) == Lower(s)
  {
  }

  // ---------------------------------------------------------------- strip()

  /** The ASCII characters Python's `str.isspace` accepts. */
  predicate IsSpace(c: char) {
    c == ' ' || 9 <= c as int <= 13 || 28 <= c as int <= 31
  }

  /** `s.strip()`: leading and trailing whitespace removed. */
  function Strip(s: string): (r: string)
    ensures |r| <= |s|
    ensures r == [] || (!IsSpace(r[0]) && !IsSpace(r[|r| - 1]))
    decreases |s|
  {
    if s != [] && IsSpace(s[0]) then Strip(s[1..])
    else if s != [] && IsSpace(s[|s| - 1]) then Strip(s[..|s| - 1])
    else s
  }

  /** `r` is the slice of `s` starting at `i`, and everything around it is whitespace. */
  predicate SpaceAround(s: string, r: string, i: int) {
    0 <= i <= |s| - |r| && r == s[i..i + |r|] &&
    (forall k :: 0 <= k < i ==> IsSpace(s[k])) &&
    (forall k :: i + |r| <= k < |s| ==> IsSpace(s[k]))
  }

  /** A leading space extends the whitespace before the slice. */
  lemma SpaceAroundCons(s: string, r: string, i: int)
    requires s != [] && IsSpace(s[0]) && SpaceAround(s[1..], r, i)
    ensures SpaceAround(s, r, i + 1)
  {
    assert s[1..][i..i + |r|] == s[i + 1..i + 1 + |r|];
    forall k | 0 <= k < i + 1
      ensures IsSpace(s[k])
    {
      if k > 0 {
        assert s[k] == s[1..][k - 1];
      }
    }
    forall k | i + 1 + |r| <= k < |s|
      ensures IsSpace(s[k])
    {
      assert s[k] == s[1..][k - 1];
    }
  }

  /** A trailing space extends the whitespace after the slice. */
  lemma SpaceAroundSnoc(s: string, r: string, i: int)
    requires s != [] && IsSpace(s[|s| - 1]) && SpaceAround(s[..|s| - 1], r, i)
    ensures SpaceAround(s, r, i)
  {
    var init := s[..|s| - 1];
    assert init[i..i + |r|] == s[i..i + |r|];
    forall k | i + |r| <= k < |s|
      ensures IsSpace(s[k])
    {
      if k < |s| - 1 {
        assert s[k] == init[k];
      }
    }
  }

  /** What `strip` removes is whitespace at the two ends, and only that. */
  lemma {:induction false} StripSlice(s: string)
    ensures exists i :: SpaceAround(s, Strip(s), i)
    decreases |s|
  {
    var r := Strip(s);
    if s != [] && IsSpace(s[0]) {
      StripSlice(s[1..]);
      var i :| SpaceAround(s[1..], r, i);
      SpaceAroundCons(s, r, i);
    } else if s != [] && IsSpace(s[|s| - 1]) {
      StripSlice(s[..|s| - 1]);
      var i :| SpaceAround(s[..|s| - 1], r, i);
      SpaceAroundSnoc(s, r, i);
    } else {
      assert SpaceAround(s, r, 0);
    }
  }

  /** A string with no whitespace at either end is already stripped. */
  lemma StripUnpadded(s: string)
    requires s == [] || (!IsSpace(s[0]) && !IsSpace(s[|s| - 1]))
    ensures Strip(s) == s
  {
  }

  /** Stripping only removes characters. */
  lemma StripSubstring(s: string, c: char)
    requires c !in s
    ensures c !in Strip(s)
  {
    StripSlice(s);
    var r := Strip(s);
    var i :| SpaceAround(s, r, i);
    assert forall n :: 0 <= n < |r| ==> r[n] == s[i + n];
  }

  lemma StripIdempotent(s: string)
    ensures Strip(Strip(s)) == Strip(s)
  {
    StripUnpadded(Strip(s));
  }

  // ------------------------------------------------ startswith() and `in`

  /** `s.startswith(p)` */
  predicate StartsWith(s: string, p: string) {
    |p| <= |s| && s[..|p|] == p
  }

  /** `q in s` for strings: `q` occurs in `s` as a contiguous slice. */
  predicate Contains(s: string, q: string)
    decreases |s|
  {
    StartsWith(s, q) || (s != [] && Contains(s[1..], q))
  }

  /** `q` occurs in `s` at index `i`. */
  predicate OccursAt(s: string, q: string, i: int) {
    0 <= i <= |s| - |q| && s[i..i + |q|] == q
  }

  lemma {:induction false} ContainsIffOccurs(s: string, q: string)
    ensures Contains(s, q) <==> exists i :: OccursAt(s, q, i)
    decreases |s|
  {
    if StartsWith(s, q) {
      assert OccursAt(s, q, 0);
    } else if s == [] {
    } else {
      ContainsIffOccurs(s[1..], q);
      if exists i :: OccursAt(s, q, i) {
        var i :| OccursAt(s, q, i);
        assert i != 0;
        assert OccursAt(s[1..], q, i - 1);
      }
      if Contains(s[1..], q) {
        var i :| OccursAt(s[1..], q, i);
        assert OccursAt(s, q, i + 1);
      }
    }
  }

  // ---------------------------------------------------------------- split()

  /** `s.split(sep)` for a one-character separator (never called with no argument here). */
  function Split(s: string, sep: char): (parts: seq<string>)
    ensures |parts| >= 1
    ensures forall i :: 0 <= i < |parts| ==> sep !in parts[i]
  {
    if s == [] then [""]
    else
      var rest := Split(s[1..], sep);
      if s[0] == sep then [""] + rest
      else [[s[0]] + rest[0]] + rest[1..]
  }

  /** A string without the separator is its own single part. */
  lemma {:induction false} SplitNoSeparator(s: string, sep: char)
    requires sep !in s
    ensures Split(s, sep) == [s]
  {
    if s != [] {
      SplitNoSeparator(s[1..], sep);
      assert [s[0]] + s[1..] == s;
    }
  }

  /** The text before the first separator is the first part; the rest is split on. */
  lemma {:induction false} SplitFirst(a: string, sep: char, b: string)
    requires sep !in a
    ensures Split(a + [sep] + b, sep) == [a] + Split(b, sep)
  {
    if a == [] {
      assert a + [sep] + b == [sep] + b;
      assert ([sep] + b)[1..] == b;
    } else {
      SplitFirst(a[1..], sep, b);
      assert (a + [sep] + b)[1..] == a[1..] + [sep] + b;
      assert [a[0]] + a[1..] == a;
    }
  }

  /** `sep.join(parts)` */
  function Join(parts: seq<string>, sep: char): string
    requires |parts| >= 1
  {
    if |parts| == 1 then parts[0] else parts[0] + [sep] + Join(parts[1..], sep)
  }

  /** Splitting loses nothing: joining the pieces again gives back the string. */
  lemma {:induction false} JoinSplit(s: string, sep: char)
    ensures Join(Split(s, sep), sep) == s
  {
    if s != [] {
      JoinSplit(s[1..], sep);
      var rest := Split(s[1..], sep);
      if s[0] != sep {
        if |rest| == 1 {
          assert Split(s, sep) == [[s[0]] + rest[0]];
        } else {
          assert Split(s, sep)[1..] == rest[1..];
          assert Join(rest, sep) == rest[0] + [sep] + Join(rest[1..], sep);
        }
      }
    }
  }

  // ------------------------------------------------- str(x).lower() == "true"

  /** `str(r.get(field, "")).lower() == "true"` */
  predicate FlagTrue(r: Record, field: string) {
    Lower(PyStr(Get(r, field, Str("")))) == "true"
  }

  /** A flag holds exactly for JSON `true` and for strings that spell "true" in any case. */
  lemma FlagTrueCases(r: Record, field: string)
    ensures FlagTrue(r, field) <==>
            field in r && (r[field] == Bool(true) || (r[field].Str? && Lower(r[field].s) == "true"))
  {
    assert Lower("True") == "true";
    assert Lower("False")[0] == 'f';
    assert Lower("None")[0] == 'n';
  }
}
