/** The few JavaScript string operations the Trakt integration relies on:
    `trim`, `startsWith`, and splitting a URL query on `&` and `=`. */
module JsStrings {

  import opened Wrappers

  /** JavaScript truthiness of a string that may be `undefined` or `null`:
      present and non-empty. */
  predicate IsTruthy(v: Option<string>) {
    v.Some? && v.value != ""
  }

  /** A code point that `String.prototype.trim` removes: ECMAScript's
      WhiteSpace and LineTerminator characters. */
  predicate IsJsSpace(c: char) {
    || c == ' ' || c == '\t' || c == '\n' || c == '\U{B}' || c == '\U{C}' || c == '\r'
    || c == '\U{A0}' || c == '\U{1680}' || ('\U{2000}' <= c <= '\U{200A}')
    || c == '\U{2028}' || c == '\U{2029}' || c == '\U{202F}' || c == '\U{205F}'
    || c == '\U{3000}' || c == '\U{FEFF}'
  }

  /** Every character of `s` is one that `trim` removes (vacuously true of ""). */
  predicate IsBlank(s: string) {
    forall i :: 0 <= i < |s| ==> IsJsSpace(s[i])
  }

  /** `s` with its leading trim characters removed. */
  function TrimStart(s: string): (r: string)
    ensures |r| <= |s| && r == s[|s| - |r|..]
    ensures IsBlank(s[..|s| - |r|])
    ensures r == [] || !IsJsSpace(r[0])
  {
    if |s| > 0 && IsJsSpace(s[0]) then
      var r := TrimStart(s[1..]);
      assert s[..|s| - |r|] == [s[0]] + s[1..][..|s| - 1 - |r|];
      r
    else s
  }

  /** `s` with its trailing trim characters removed. */
  function TrimEnd(s: string): (r: string)
    ensures |r| <= |s| && r == s[..|r|]
    ensures IsBlank(s[|r|..])
    ensures r == [] || !IsJsSpace(r[|r| - 1])
  {
    if |s| > 0 && IsJsSpace(s[|s| - 1]) then
      var r := TrimEnd(s[..|s| - 1]);
      assert s[|r|..] == s[..|s| - 1][|r|..] + [s[|s| - 1]];
      r
    else s
  }

  /** `String.prototype.trim`. */
  function Trim(s: string): string {
    TrimEnd(TrimStart(s))
  }

  /** `s.trim() === ''` holds exactly when every character of `s` is one
      that `trim` removes. */
  lemma TrimEmptyIffBlank(s: string)
    ensures Trim(s) == "" <==> IsBlank(s)
  {
    var t := TrimStart(s);
    if Trim(s) == "" {
      assert IsBlank(t) by { assert t[0..] == t; }
      assert t == [];
      assert s[..|s|] == s;
    }
  }

  /** `s.startsWith(prefix)`. */
  predicate StartsWith(s: string, prefix: string) {
    |prefix| <= |s| && s[..|prefix|] == prefix
  }

  /** `s.split(sep)` for a one-character separator: the maximal pieces of
      `s` between occurrences of `sep`, always at least one (possibly empty). */
  function Split(s: string, sep: char): (parts: seq<string>)
    ensures |parts| >= 1
    ensures forall i :: 0 <= i < |parts| ==> sep !in parts[i]
  {
    if |s| == 0 then [""]
    else
      var rest := Split(s[1..], sep);
      if s[0] == sep then [""] + rest else [[s[0]] + rest[0]] + rest[1..]
  }

  /** `parts.join(sep)`. */
  function Join(parts: seq<string>, sep: char): string
    requires |parts| >= 1
  {
    if |parts| == 1 then parts[0] else parts[0] + [sep] + Join(parts[1..], sep)
  }

  lemma {:induction false} SplitLeadingPiece(p: string, t: string, sep: char)
    requires sep !in p
    ensures Split(p + [sep] + t, sep) == [p] + Split(t, sep)
  {
    if p == [] {
      assert ([sep] + t)[1..] == t;
    } else {
      assert (p + [sep] + t)[1..] == p[1..] + [sep] + t;
      SplitLeadingPiece(p[1..], t, sep);
      assert [p[0]] + p[1..] == p;
    }
  }

  lemma {:induction false} SplitSinglePiece(p: string, sep: char)
    requires sep !in p
    ensures Split(p, sep) == [p]
  {
    if p != [] {
      SplitSinglePiece(p[1..], sep);
      assert [p[0]] + p[1..] == p;
    }
  }

  /** Splitting a join gives back the pieces, provided none contains the separator. */
  lemma {:induction false} SplitJoin(parts: seq<string>, sep: char)
    requires |parts| >= 1
    requires forall i :: 0 <= i < |parts| ==> sep !in parts[i]
    ensures Split(Join(parts, sep), sep) == parts
  {
    if |parts| == 1 {
      SplitSinglePiece(parts[0], sep);
    } else {
      SplitJoin(parts[1..], sep);
      SplitLeadingPiece(parts[0], Join(parts[1..], sep), sep);
      assert [parts[0]] + parts[1..] == parts;
    }
  }

  /** A `key=value` query parameter split at its first `=`; a parameter
      without `=` has the empty value. */
  function SplitParam(s: string): (kv: (string, string))
    ensures '=' !in kv.0
    ensures s == kv.0 || s == kv.0 + "=" + kv.1
  {
    if |s| == 0 then ("", "")
    else if s[0] == '=' then ("", s[1..])
    else
      var kv := SplitParam(s[1..]);
      ([s[0]] + kv.0, kv.1)
  }

  lemma {:induction false} SplitParamKeyValue(key: string, value: string)
    requires '=' !in key
    ensures SplitParam(key + "=" + value) == (key, value)
  {
    if key == [] {
      assert ("=" + value)[1..] == value;
    } else {
      assert (key + "=" + value)[1..] == key[1..] + "=" + value;
      SplitParamKeyValue(key[1..], value);
      assert [key[0]] + key[1..] == key;
    }
  }

  /** The parameters of a query string `k1=v1&k2=v2&...`, in order. */
  function QueryParams(query: string): (ps: seq<(string, string)>)
    ensures |ps| == |Split(query, '&')|
  {
    var pieces := Split(query, '&');
    seq(|pieces|, i requires 0 <= i < |pieces| => SplitParam(pieces[i]))
  }

  /** The value of the first pair whose key is `key`: `URLSearchParams.get`
      on a parsed query, or a field of a JSON object. */
  function FirstValue(ps: seq<(string, string)>, key: string): (v: Option<string>)
    ensures v.Some? <==> exists i :: 0 <= i < |ps| && ps[i].0 == key
    ensures v.Some? ==> exists i :: 0 <= i < |ps| && ps[i] == (key, v.value)
  {
    if |ps| == 0 then None
    else if ps[0].0 == key then Some(ps[0].1)
    else
      var v := FirstValue(ps[1..], key);
      assert forall i :: 1 <= i < |ps| ==> ps[i] == ps[1..][i - 1];
      v
  }

  /** When no earlier pair has the same key, the pair at `i` decides the value. */
  lemma {:induction false} FirstValueAt(ps: seq<(string, string)>, i: nat)
    requires i < |ps|
    requires forall j :: 0 <= j < i ==> ps[j].0 != ps[i].0
    ensures FirstValue(ps, ps[i].0) == Some(ps[i].1)
  {
    if i > 0 {
      FirstValueAt(ps[1..], i - 1);
    }
  }

  /** A key no pair carries has no value. */
  lemma FirstValueAbsent(ps: seq<(string, string)>, key: string)
    requires forall j :: 0 <= j < |ps| ==> ps[j].0 != key
    ensures FirstValue(ps, key) == None
  {
  }

  /** A query parameter written as `key=value`. */
  function Param(kv: (string, string)): string {
    kv.0 + "=" + kv.1
  }

  /** Parsing a query written from `key=value` pairs gives back the pairs,
      provided no key contains `=` or `&` and no value contains `&`. */
  lemma QueryParamsOfJoin(ps: seq<(string, string)>)
    requires |ps| == 4
    requires forall i :: 0 <= i < 4 ==> '=' !in ps[i].0 && '&' !in ps[i].0 && '&' !in ps[i].1
    ensures QueryParams(Join([Param(ps[0]), Param(ps[1]), Param(ps[2]), Param(ps[3])], '&')) == ps
  {
    var pieces := [Param(ps[0]), Param(ps[1]), Param(ps[2]), Param(ps[3])];
    forall i | 0 <= i < 4 ensures '&' !in pieces[i] && SplitParam(pieces[i]) == ps[i] {
      SplitParamKeyValue(ps[i].0, ps[i].1);
    }
    SplitJoin(pieces, '&');
  }
}
