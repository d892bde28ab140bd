/** The JavaScript value and string operations the item-economy code relies on,
    restated over Dafny values: optional fields, localized texts, ASCII case
    mapping, `trim`, `includes`, `split`/`join`, integer printing and the string
    order used to sort station names. */
module JsText {

  /** A field that may be `undefined`. */
  datatype Option<+T> = None | Some(value: T)

  /** The outcome of an operation that may throw: the value, or the error's message. */
  datatype Result<+T> = Ok(value: T) | Err(error: string)

  /** A display text as the content repository delivers it: a bare string, or an
      object from language code to string whose entries keep insertion order. */
  datatype Text = Plain(s: string) | ByLang(entries: seq<(string, string)>)

  /** `obj[key]` on a plain object: the value stored under `key`, if any. */
  function Lookup<T>(entries: seq<(string, T)>, key: string): (r: Option<T>)
    ensures r.Some? <==> exists i :: 0 <= i < |entries| && entries[i].0 == key
    ensures r.Some? ==> exists i :: 0 <= i < |entries| && entries[i] == (key, r.value)
  {
    if entries == [] then None
    else if entries[0].0 == key then Some(entries[0].1)
    else
      var r := Lookup(entries[1..], key);
      assert forall i :: 0 < i < |entries| ==> entries[i] == entries[1..][i - 1];
      r
  }

  /** `t?.en` read with JavaScript truthiness: the English text when the text is
      an object holding a non-empty `en` entry. A bare string has no `en` field. */
  function English(t: Option<Text>): (r: Option<string>)
    ensures r.Some? ==> r.value != "" && t.Some? && t.value.ByLang?
    ensures r.Some? ==> Lookup(t.value.entries, "en") == r
    ensures t.Some? && t.value.ByLang? && Lookup(t.value.entries, "en").Some? && Lookup(t.value.entries, "en").value != "" ==>
              r == Lookup(t.value.entries, "en")
  {
    match t
    case Some(ByLang(es)) =>
      (match Lookup(es, "en")
       case Some(v) => if v != "" then Some(v) else None
       case None => None)
    case _ => None
  }

  // ---------------------------------------------------------------------------
  // Character case (ASCII letters only)

  function ToUpper(c: char): char {
    if 'a' <= c <= 'z' then (c as int - 32) as char else c
  }

  function ToLower(c: char): char {
    if 'A' <= c <= 'Z' then (c as int + 32) as char else c
  }

  /** `s.toLowerCase()`, restricted to ASCII letters. */
  function LowerCase(s: string): (r: string)
    ensures |r| == |s|
    ensures forall i :: 0 <= i < |s| ==> r[i] == ToLower(s[i])
  {
    seq(|s|, i requires 0 <= i < |s| => ToLower(s[i]))
  }

  // ---------------------------------------------------------------------------
  // Whitespace and trim

  predicate IsSpace(c: char) {
    c == ' ' || c == '\t' || c == '\n' || c == '\r' || c == '\U{B}' || c == '\U{C}'
  }

  function TrimStart(s: string): (r: string)
    ensures r == "" <==> forall i :: 0 <= i < |s| ==> IsSpace(s[i])
    ensures |r| <= |s| && r == s[|s| - |r|..]
    ensures r != "" ==> !IsSpace(r[0]) && r[|r| - 1] == s[|s| - 1]
  {
    if s != [] && IsSpace(s[0]) then
      var r := TrimStart(s[1..]);
      assert forall i :: 0 < i < |s| ==> s[i] == s[1..][i - 1];
      r
    else s
  }

  function TrimEnd(s: string): (r: string)
    ensures r == "" <==> forall i :: 0 <= i < |s| ==> IsSpace(s[i])
    ensures |r| <= |s| && r == s[..|r|]
    ensures r != "" ==> !IsSpace(r[|r| - 1]) && r[0] == s[0]
  {
    if s != [] && IsSpace(s[|s| - 1]) then TrimEnd(s[..|s| - 1]) else s
  }

  /** `trimStart` cuts only whitespace. */
  lemma {:induction false} TrimStartCutsSpace(s: string)
    ensures forall i :: 0 <= i < |s| - |TrimStart(s)| ==> IsSpace(s[i])
    decreases |s|
  {
    if s != [] && IsSpace(s[0]) {
      var r := TrimStart(s[1..]);
      assert TrimStart(s) == r;
      TrimStartCutsSpace(s[1..]);
      forall i | 0 < i < |s| - |r|
        ensures IsSpace(s[i])
      {
        assert s[i] == s[1..][i - 1];
      }
    }
  }

  /** `trimEnd` cuts only whitespace. */
  lemma {:induction false} TrimEndCutsSpace(s: string)
    ensures forall i :: |TrimEnd(s)| <= i < |s| ==> IsSpace(s[i])
    decreases |s|
  {
    if s != [] && IsSpace(s[|s| - 1]) {
      var init := s[..|s| - 1];
      TrimEndCutsSpace(init);
      forall i | |TrimEnd(s)| <= i < |s| - 1
        ensures IsSpace(s[i])
      {
        assert s[i] == init[i];
      }
    }
  }

  /** `s.trim()`: `s` without its leading and trailing whitespace. */
  function Trim(s: string): (r: string)
    ensures r == "" <==> forall i :: 0 <= i < |s| ==> IsSpace(s[i])
    ensures r != "" ==> !IsSpace(r[0]) && !IsSpace(r[|r| - 1])
  {
    var t := TrimStart(s);
    var r := TrimEnd(t);
    assert r != "" ==> t != "" && r[0] == t[0];
    r
  }

  /** `r` is `s[a..b]`, and everything cut off before `a` and after `b` is whitespace. */
  predicate CutsOnlySpace(s: string, a: int, b: int, r: string)
    requires 0 <= a <= b <= |s|
  {
    && r == s[a..b]
    && (forall i :: 0 <= i < a ==> IsSpace(s[i]))
    && (forall i :: b <= i < |s| ==> IsSpace(s[i]))
  }

  /** What `trim` keeps is a middle part of the text: only whitespace is cut, at the
      start and at the end. */
  lemma TrimCutsOnlySpace(s: string)
    ensures exists a, b :: 0 <= a <= b <= |s| && CutsOnlySpace(s, a, b, Trim(s))
  {
    var t := TrimStart(s);
    var r := TrimEnd(t);
    TrimStartCutsSpace(s);
    TrimEndCutsSpace(t);
    MiddleCut(s, t, r);
    assert Trim(s) == r;
    assert 0 <= |s| - |t| <= |s| - |t| + |r| <= |s|;
  }

  /** A suffix `t` of `s` whose cut-off front is whitespace, and a prefix `r` of `t`
      whose cut-off back is whitespace: `r` is a middle part of `s` with only
      whitespace cut. */
  lemma MiddleCut(s: string, t: string, r: string)
    requires |t| <= |s| && t == s[|s| - |t|..] && forall i :: 0 <= i < |s| - |t| ==> IsSpace(s[i])
    requires |r| <= |t| && r == t[..|r|] && forall i :: |r| <= i < |t| ==> IsSpace(t[i])
    ensures CutsOnlySpace(s, |s| - |t|, |s| - |t| + |r|, r)
  {
    var a := |s| - |t|;
    assert r == s[a..a + |r|];
    forall i | a + |r| <= i < |s|
      ensures IsSpace(s[i])
    {
      assert s[i] == t[i - a];
    }
  }

  // ---------------------------------------------------------------------------
  // Substring search

  predicate StartsWith(s: string, prefix: string) {
    |prefix| <= |s| && s[..|prefix|] == prefix
  }

  /** `s.includes(sub)`, by trying every starting position in turn. */
  predicate Includes(s: string, sub: string)
    decreases |s|
  {
    StartsWith(s, sub) || (s != [] && Includes(s[1..], sub))
  }

  /** `sub` occurs in `s` starting at position `i`. */
  predicate OccursAt(s: string, sub: string, i: int) {
    0 <= i <= |s| - |sub| && s[i..i + |sub|] == sub
  }

  /** `Includes` holds exactly when `sub` occurs at some position of `s`. */
  lemma {:induction false} IncludesIffOccurs(s: string, sub: string)
    ensures Includes(s, sub) <==> exists i :: OccursAt(s, sub, i)
    decreases |s|
  {
    if StartsWith(s, sub) {
      assert OccursAt(s, sub, 0);
    } else if s != [] {
      IncludesIffOccurs(s[1..], sub);
      if Includes(s[1..], sub) {
        var i :| OccursAt(s[1..], sub, i);
        assert s[1..][i..i + |sub|] == s[i + 1..i + 1 + |sub|];
        assert OccursAt(s, sub, i + 1);
      }
      if i :| OccursAt(s, sub, i) {
        assert i > 0;
        assert s[1..][i - 1..i - 1 + |sub|] == s[i..i + |sub|];
        assert OccursAt(s[1..], sub, i - 1);
      }
    }
  }

  // ---------------------------------------------------------------------------
  // split and join

  /** `s.split(sep)`: the maximal pieces of `s` between occurrences of `sep`. */
  function Split(s: string, sep: char): (parts: seq<string>)
    ensures |parts| >= 1
    ensures forall k, i :: 0 <= k < |parts| && 0 <= i < |parts[k]| ==> parts[k][i] != sep
    decreases |s|
  {
    if s == [] then [""]
    else
      var rest := Split(s[1..], sep);
      if s[0] == sep then [""] + rest
      else
        var first := [s[0]] + rest[0];
        assert forall i :: 0 < i < |first| ==> first[i] == rest[0][i - 1];
        [first] + rest[1..]
  }

  /** `parts.join(sep)`. */
  function Join(parts: seq<string>, sep: string): string
  {
    if parts == [] then ""
    else if |parts| == 1 then parts[0]
    else parts[0] + sep + Join(parts[1..], sep)
  }

  /** A join whose last part is non-empty is non-empty. */
  lemma {:induction false} JoinNonEmpty(parts: seq<string>, sep: string)
    requires parts != [] && parts[|parts| - 1] != ""
    ensures Join(parts, sep) != ""
  {
    if |parts| > 1 {
      JoinNonEmpty(parts[1..], sep);
    }
  }

  /** Joining the pieces of a split with the separator gives back the string. */
  lemma {:induction false} JoinSplit(s: string, sep: char)
    ensures Join(Split(s, sep), [sep]) == s
    decreases |s|
  {
    if s != [] {
      JoinSplit(s[1..], sep);
      var rest := Split(s[1..], sep);
      if s[0] == sep {
        assert Join([""] + rest, [sep]) == "" + [sep] + Join(rest, [sep]);
      } else {
        JoinConsFirst([s[0]], rest[0], rest[1..], [sep]);
        assert [rest[0]] + rest[1..] == rest;
        assert s == [s[0]] + s[1..];
      }
    }
  }

  /** Prefixing the first part of a join prefixes the whole join. */
  lemma {:induction false} JoinConsFirst(x: string, y: string, more: seq<string>, sep: string)
    ensures Join([x + y] + more, sep) == x + Join([y] + more, sep)
  {
    if more != [] {
      assert ([x + y] + more)[1..] == more;
      assert ([y] + more)[1..] == more;
    }
  }

  // ---------------------------------------------------------------------------
  // Integer printing (template literals and `String(n)`)

  function DigitChar(d: int): char
    requires 0 <= d < 10
  {
    "0123456789"[d]
  }

  function DigitValue(c: char): int {
    c as int - '0' as int
  }

  /** The decimal digits of `n`, most significant first. */
  function NatToString(n: nat): (r: string)
    ensures r != ""
    ensures forall i :: 0 <= i < |r| ==> '0' <= r[i] <= '9'
  {
    if n < 10 then [DigitChar(n)] else NatToString(n / 10) + [DigitChar(n % 10)]
  }

  /** `${n}` for an integer `n`. */
  function IntToString(n: int): string {
    if n < 0 then "-" + NatToString(-n) else NatToString(n)
  }

  /** The number a string of decimal digits denotes. */
  function ParseDigits(s: string): int {
    if s == [] then 0 else 10 * ParseDigits(s[..|s| - 1]) + DigitValue(s[|s| - 1])
  }

  /** Printing a natural number and reading its digits back gives the number. */
  lemma {:induction false} NatToStringRoundTrip(n: nat)
    ensures ParseDigits(NatToString(n)) == n
  {
    if n >= 10 {
      NatToStringRoundTrip(n / 10);
      var s := NatToString(n / 10) + [DigitChar(n % 10)];
      assert s[..|s| - 1] == NatToString(n / 10);
    }
  }

  // ---------------------------------------------------------------------------
  // String order (`localeCompare`, taken as code-point lexicographic order)

  predicate StrLess(a: string, b: string)
    decreases |a|
  {
    if a == [] then b != []
    else if b == [] then false
    else if a[0] != b[0] then a[0] < b[0]
    else StrLess(a[1..], b[1..])
  }

  lemma {:induction false} StrLessIrreflexive(a: string)
    ensures !StrLess(a, a)
  {
    if a != [] { StrLessIrreflexive(a[1..]); }
  }

  lemma {:induction false} StrLessTransitive(a: string, b: string, c: string)
    requires StrLess(a, b) && StrLess(b, c)
    ensures StrLess(a, c)
    decreases |a|
  {
    if a != [] && b != [] && c != [] && a[0] == b[0] && b[0] == c[0] {
      StrLessTransitive(a[1..], b[1..], c[1..]);
    }
  }

  lemma {:induction false} StrLessTotal(a: string, b: string)
    requires a != b
    ensures StrLess(a, b) || StrLess(b, a)
    decreases |a|
  {
    if a != [] && b != [] && a[0] == b[0] {
      assert a == [a[0]] + a[1..] && b == [b[0]] + b[1..];
      StrLessTotal(a[1..], b[1..]);
    }
  }

  lemma {:induction false} StrLessAsymmetric(a: string, b: string)
    requires StrLess(a, b)
    ensures !StrLess(b, a)
    decreases |a|
  {
    if a != [] && b != [] && a[0] == b[0] {
      StrLessAsymmetric(a[1..], b[1..]);
    }
  }
}
