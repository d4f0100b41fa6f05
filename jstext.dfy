/** The few JavaScript string operations the request handlers rely on:
    truthiness of an optional string, `String.prototype.split` with a
    one-character separator, and `String.prototype.trim`. */
module JsText {
  import opened Wrappers

  /** JavaScript truthiness of a value that is either `undefined` or a
      string: `undefined` and the empty string are falsy. */
  predicate Truthy(v: Option<string>) {
    v.Some? && v.value != ""
  }

  /** `fields.join(sep)`: the fields with one separator between neighbours. */
  function Join(fields: seq<string>, sep: char): string
  {
    if |fields| == 0 then []
    else if |fields| == 1 then fields[0]
    else fields[0] + [sep] + Join(fields[1..], sep)
  }

  /** `s.split(sep)` for a one-character separator: cut at every occurrence
      of `sep`, so there is always at least one field, fields may be empty,
      and no field contains the separator. Joining the fields again gives
      back `s`. */
  function Split(s: string, sep: char): (fields: seq<string>)
    ensures |fields| >= 1
    ensures Join(fields, sep) == s
    ensures forall i :: 0 <= i < |fields| ==> sep !in fields[i]
  {
    if s == [] then [[]]
    else
      var rest := Split(s[1..], sep);
      if s[0] == sep then
        assert ([[]] + rest)[1..] == rest;
        [[]] + rest
      else
        var fields := [[s[0]] + rest[0]] + rest[1..];
        assert |rest| > 1 ==> Join(rest, sep) == rest[0] + [sep] + Join(rest[1..], sep);
        assert fields[1..] == rest[1..];
        fields
  }

  /** A leading piece without the separator becomes the start of the first field. */
  lemma {:induction false} SplitPrefix(f: string, t: string, sep: char)
    requires sep !in f
    ensures Split(f + t, sep) == [f + Split(t, sep)[0]] + Split(t, sep)[1..]
  {
    if f != [] {
      assert (f + t)[1..] == f[1..] + t;
      SplitPrefix(f[1..], t, sep);
      assert [f[0]] + (f[1..] + Split(t, sep)[0]) == f + Split(t, sep)[0];
    } else {
      assert f + t == t;
      assert f + Split(t, sep)[0] == Split(t, sep)[0];
      assert Split(t, sep) == [Split(t, sep)[0]] + Split(t, sep)[1..];
    }
  }

  /** Split is the inverse of Join on fields that do not contain the
      separator (the converse, Join after Split, is Split's own contract). */
  lemma {:induction false} SplitJoin(fields: seq<string>, sep: char)
    requires |fields| >= 1
    requires forall i :: 0 <= i < |fields| ==> sep !in fields[i]
    ensures Split(Join(fields, sep), sep) == fields
  {
    if |fields| == 1 {
      SplitFieldEnd(fields[0], sep);
    } else {
      SplitJoin(fields[1..], sep);
      SplitAfterField(fields[0], Join(fields[1..], sep), sep);
      assert fields == [fields[0]] + fields[1..];
    }
  }

  /** A first field followed by the separator splits off as a field of its own. */
  lemma SplitAfterField(f: string, rest: string, sep: char)
    requires sep !in f
    ensures Split(f + [sep] + rest, sep) == [f] + Split(rest, sep)
  {
    assert f + [sep] + rest == f + ([sep] + rest);
    assert ([sep] + rest)[1..] == rest;
    SplitPrefix(f, [sep] + rest, sep);
    assert f + [] == f;
  }

  /** A text without the separator is a single field. */
  lemma SplitFieldEnd(f: string, sep: char)
    requires sep !in f
    ensures Split(f, sep) == [f]
  {
    SplitPrefix(f, [], sep);
    assert f + [] == f;
  }

  /** A character that is in no field and is not the separator is not in the join. */
  lemma {:induction false} JoinAvoids(fields: seq<string>, sep: char, c: char)
    requires c != sep
    requires forall i :: 0 <= i < |fields| ==> c !in fields[i]
    ensures c !in Join(fields, sep)
  {
    if |fields| > 1 {
      JoinAvoids(fields[1..], sep, c);
    }
  }

  /** The characters `String.prototype.trim` removes: the ECMAScript
      WhiteSpace and LineTerminator code points. */
  predicate IsJsWhitespace(c: char) {
    c == '\t' || c == '\n' || c == '\U{000B}' || c == '\U{000C}' || c == '\r'
    || c == ' ' || c == '\U{00A0}' || c == '\U{1680}'
    || ('\U{2000}' <= c <= '\U{200A}')
    || c == '\U{2028}' || c == '\U{2029}' || c == '\U{202F}' || c == '\U{205F}'
    || c == '\U{3000}' || c == '\U{FEFF}'
  }

  /** Every character of `s` is whitespace (the empty string included). */
  predicate IsBlank(s: string) {
    forall i :: 0 <= i < |s| ==> IsJsWhitespace(s[i])
  }

  /** A whitespace character followed by blank text is blank. */
  lemma BlankFront(s: string, k: int)
    requires 1 <= k <= |s| && IsJsWhitespace(s[0]) && IsBlank(s[1..][..k - 1])
    ensures IsBlank(s[..k])
  {
    forall i | 1 <= i < k ensures IsJsWhitespace(s[..k][i]) {
      assert s[..k][i] == s[1..][..k - 1][i - 1];
    }
  }

  /** Blank text followed by a whitespace character is blank. */
  lemma BlankBack(s: string, k: int)
    requires 0 <= k < |s| && IsJsWhitespace(s[|s| - 1]) && IsBlank(s[..|s| - 1][k..])
    ensures IsBlank(s[k..])
  {
    forall i | 0 <= i < |s| - 1 - k ensures IsJsWhitespace(s[k..][i]) {
      assert s[k..][i] == s[..|s| - 1][k..][i];
    }
  }

  /** `s` without its leading whitespace. */
  function TrimStart(s: string): (t: string)
    ensures |t| <= |s| && t == s[|s| - |t|..]
    ensures IsBlank(s[..|s| - |t|])
    ensures t == [] <==> IsBlank(s)
    ensures t != [] ==> !IsJsWhitespace(t[0])
  {
    if s != [] && IsJsWhitespace(s[0]) then
      var t := TrimStart(s[1..]);
      BlankFront(s, |s| - |t|);
      assert IsBlank(s) <==> IsBlank(s[1..]) by {
        if IsBlank(s[1..]) {
          assert s[1..][..|s| - 1] == s[1..];
          BlankFront(s, |s|);
          assert s[..|s|] == s;
        }
      }
      t
    else s
  }

  /** `s` without its trailing whitespace. */
  function TrimEnd(s: string): (t: string)
    ensures |t| <= |s| && t == s[..|t|]
    ensures IsBlank(s[|t|..])
    ensures t == [] <==> IsBlank(s)
    ensures t != [] ==> !IsJsWhitespace(t[|t| - 1])
  {
    if s != [] && IsJsWhitespace(s[|s| - 1]) then
      var t := TrimEnd(s[..|s| - 1]);
      BlankBack(s, |t|);
      t
    else s
  }

  /** `s.trim()`: `s` with exactly its leading and trailing whitespace cut
      off. What is left neither starts nor ends with whitespace, and is
      empty exactly when `s` is all whitespace. */
  function Trim(s: string): (t: string)
    ensures t == [] <==> IsBlank(s)
    ensures t != [] ==> !IsJsWhitespace(t[0]) && !IsJsWhitespace(t[|t| - 1])
    ensures exists i, j :: 0 <= i <= j <= |s| && t == s[i..j] && IsBlank(s[..i]) && IsBlank(s[j..])
  {
    var u := TrimStart(s);
    var t := TrimEnd(u);
    assert t != [] ==> t[0] == u[0] by {
      if t != [] { assert t == u[..|t|]; }
    }
    TrimCuts(s, u, t);
    t
  }

  /** Cutting a blank prefix off `s`, then a blank suffix off what is left,
      leaves the piece of `s` between the two. */
  lemma TrimCuts(s: string, u: string, t: string)
    requires |u| <= |s| && u == s[|s| - |u|..] && IsBlank(s[..|s| - |u|])
    requires |t| <= |u| && t == u[..|t|] && IsBlank(u[|t|..])
    ensures exists i, j :: 0 <= i <= j <= |s| && t == s[i..j] && IsBlank(s[..i]) && IsBlank(s[j..])
  {
    var i, j := |s| - |u|, |s| - |u| + |t|;
    assert t == s[i..j];
    assert s[j..] == u[|t|..];
  }
}
