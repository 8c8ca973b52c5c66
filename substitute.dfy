/**
 * `substituteParams` (database/db_execute.js): the debug rendering of a query
 * whose named placeholders `@key` are replaced, key by key, by the parameter
 * values. Each key is applied with `replace(new RegExp('@' + key + '\\b', 'g'), val)`.
 */
module Substitute {
  import opened Wrappers
  import opened JsString

  /** A parameter value: a string, which is quoted, or an integer, written in decimal. */
  datatype ParamValue = Text(s: string) | Number(n: int)

  /** The text that replaces a placeholder: `'value'` for a string, the decimal digits for a number. */
  function ValueText(v: ParamValue): (r: string)
    ensures |r| >= 1
    ensures v.Text? ==> r == "'" + v.s + "'"
    ensures v.Number? && v.n >= 0 ==> DigitsValue(r) == v.n
    ensures v.Number? ==> (r[0] == '-' <==> v.n < 0)
    ensures v.Number? && v.n < 0 ==> DigitsValue(r[1..]) == -v.n
    ensures v.Number? ==> r == IntText(v.n)
  {
    match v
    case Text(s) => "'" + s + "'"
    case Number(n) =>
      if n >= 0 then NatTextRoundTrip(n); IntText(n)
      else NatTextRoundTrip(-n); assert IntText(n)[1..] == NatText(-n); IntText(n)
  }

  /** Position `i` of `s` holds a `\w` character. */
  predicate WordAt(s: string, i: int)
  {
    0 <= i < |s| && IsWordChar(s[i])
  }

  /** The assertion `\b` at position `i`: a word character on exactly one side. */
  predicate BoundaryAt(s: string, i: int)
  {
    WordAt(s, i - 1) != WordAt(s, i)
  }

  /** The pattern `@key\b` matches at the start of `s`. */
  predicate MatchesAt(s: string, key: string)
  {
    |key| + 1 <= |s| && s[0] == '@' && s[1..|key| + 1] == key && BoundaryAt(s, |key| + 1)
  }

  /**
   * A global replace of `@key\b` by `text`: scanning left to right, each match
   * is replaced and scanning resumes after it; the inserted text is not rescanned.
   */
  function ReplaceWord(s: string, key: string, text: string): (r: string)
    ensures '@' !in s ==> r == s
    decreases |s|
  {
    if s == [] then []
    else if MatchesAt(s, key) then text + ReplaceWord(s[|key| + 1..], key, text)
    else [s[0]] + ReplaceWord(s[1..], key, text)
  }

  /** Reference for `substituteParams`: the entries of `params` applied in order, each to the previous output. */
  function Substituted(query: string, params: seq<(string, ParamValue)>): string
    decreases |params|
  {
    if params == [] then query
    else Substituted(ReplaceWord(query, params[0].0, ValueText(params[0].1)), params[1..])
  }

  /** `substituteParams(query, params)`, with `params` given as its `Object.entries` list. */
  method SubstituteParams(query: string, params: seq<(string, ParamValue)>) returns (substituted: string)
    ensures substituted == Substituted(query, params)
  {
    substituted := query;
    for i := 0 to |params|
      invariant Substituted(query, params) == Substituted(substituted, params[i..])
    {
      var (key, value) := params[i];
      assert params[i..][0] == params[i] && params[i..][1..] == params[i + 1..];
      var val := ValueText(value);
      substituted := ReplaceWord(substituted, key, val);
    }
    assert params[|params|..] == [];
  }

  /** A prefix without `@` is copied and the replace goes on after it. */
  lemma {:induction false} ReplaceWordSkipsPrefix(p: string, t: string, key: string, text: string)
    requires '@' !in p
    ensures ReplaceWord(p + t, key, text) == p + ReplaceWord(t, key, text)
    decreases |p|
  {
    if p != [] {
      assert (p + t)[0] == p[0] && (p + t)[1..] == p[1..] + t;
      ReplaceWordSkipsPrefix(p[1..], t, key, text);
    } else {
      assert p + t == t;
    }
  }

  /** `@key` followed by a non-word character or the end is replaced, and the replace goes on after it. */
  lemma ReplaceWordHit(key: string, t: string, text: string)
    requires |key| > 0 && IsWordChar(key[|key| - 1])
    requires t == [] || !IsWordChar(t[0])
    ensures ReplaceWord("@" + key + t, key, text) == text + ReplaceWord(t, key, text)
  {
    var s := "@" + key + t;
    assert s[1..|key| + 1] == key && s[|key|] == key[|key| - 1];
    assert s[|key| + 1..] == t;
    assert MatchesAt(s, key);
  }

  /** Any other `@` is copied: an `@` that does not start `@key\b` stays, and the scan goes on after it. */
  lemma ReplaceWordOtherAt(t: string, key: string, text: string)
    requires '@' !in t && !MatchesAt("@" + t, key)
    ensures ReplaceWord("@" + t, key, text) == "@" + t
  {
    assert ("@" + t)[0] == '@' && ("@" + t)[1..] == t;
  }

  /** `@key` followed by a word character is left alone: key `user` does not touch `@userId`. */
  lemma ReplaceWordMissesLongerName(key: string, c: char, t: string, text: string)
    requires |key| > 0 && IsWordChar(key[|key| - 1]) && '@' !in key
    requires IsWordChar(c)
    ensures ReplaceWord("@" + key + [c] + t, key, text) == "@" + key + ReplaceWord([c] + t, key, text)
  {
    var s := "@" + key + [c] + t;
    assert s[|key|] == key[|key| - 1] && s[|key| + 1] == c;
    assert !BoundaryAt(s, |key| + 1);
    assert s[0] == '@' && s[1..] == key + ([c] + t);
    var rest := ReplaceWord([c] + t, key, text);
    assert ReplaceWord(s, key, text) == "@" + ReplaceWord(key + ([c] + t), key, text);
    ReplaceWordSkipsPrefix(key, [c] + t, key, text);
    AppendAssoc("@", key, rest);
  }

  /** A match at the front of `p + q` lies inside `p` when `q` starts with `@`, and is then a match of `p`. */
  lemma MatchesAtBeforeAt(p: string, q: string, key: string)
    requires p != [] && '@' !in key
    requires q == [] || q[0] == '@'
    ensures MatchesAt(p + q, key) ==> |key| + 1 <= |p|
    ensures MatchesAt(p + q, key) <==> MatchesAt(p, key)
  {
    var s := p + q;
    if |key| + 1 <= |p| {
      assert s[0] == p[0] && s[1..|key| + 1] == p[1..|key| + 1];
      assert WordAt(p, |key|) == WordAt(s, |key|);
      assert WordAt(p, |key| + 1) == WordAt(s, |key| + 1);
    } else if |key| + 1 <= |s| {
      assert s[|p|] == '@';
      assert s[1..|key| + 1][|p| - 1] == s[|p|];
      assert key[|p| - 1] != '@';
      assert s[1..|key| + 1] != key;
    }
  }

  /**
   * A replace splits at any `@`: the scan of `p` cannot run into a `q` that
   * starts with `@`, because a key holds no `@` and `@` is not a word character.
   */
  lemma {:induction false} ReplaceWordSplitAtAt(p: string, q: string, key: string, text: string)
    requires '@' !in key
    requires q == [] || q[0] == '@'
    ensures ReplaceWord(p + q, key, text) == ReplaceWord(p, key, text) + ReplaceWord(q, key, text)
    decreases |p|
  {
    var s := p + q;
    if p == [] {
      assert s == q;
    } else {
      MatchesAtBeforeAt(p, q, key);
      if MatchesAt(s, key) {
        assert s[|key| + 1..] == p[|key| + 1..] + q;
        ReplaceWordSplitAtAt(p[|key| + 1..], q, key, text);
        AppendAssoc(text, ReplaceWord(p[|key| + 1..], key, text), ReplaceWord(q, key, text));
      } else {
        assert s[0] == p[0] && s[1..] == p[1..] + q;
        ReplaceWordSplitAtAt(p[1..], q, key, text);
        AppendAssoc([p[0]], ReplaceWord(p[1..], key, text), ReplaceWord(q, key, text));
      }
    }
  }

  /**
   * The flag `g` replaces every occurrence: an `@key` that ends at a word
   * boundary is replaced wherever it stands, whatever text comes before it.
   */
  lemma EveryOccurrence(p: string, key: string, t: string, text: string)
    requires PlainKey(key)
    requires t == [] || !IsWordChar(t[0])
    ensures ReplaceWord(p + ("@" + key + t), key, text) == ReplaceWord(p, key, text) + text + ReplaceWord(t, key, text)
  {
    ReplaceWordSplitAtAt(p, "@" + key + t, key, text);
    ReplaceWordHit(key, t, text);
    AppendAssoc(ReplaceWord(p, key, text), text, ReplaceWord(t, key, text));
  }

  /** With no parameters the query is returned unchanged. */
  lemma SubstituteNoParams(query: string)
    ensures Substituted(query, []) == query
  {
  }

  /** A query without `@` is returned unchanged, whatever the parameters. */
  lemma {:induction false} SubstituteNoAt(query: string, params: seq<(string, ParamValue)>)
    requires '@' !in query
    ensures Substituted(query, params) == query
    decreases |params|
  {
    if params != [] {
      SubstituteNoAt(query, params[1..]);
    }
  }

  /** Keys are applied in entry order: the last entry is applied to the output of all the earlier ones. */
  lemma {:induction false} SubstituteInOrder(query: string, params: seq<(string, ParamValue)>, last: (string, ParamValue))
    ensures Substituted(query, params + [last]) == ReplaceWord(Substituted(query, params), last.0, ValueText(last.1))
    decreases |params|
  {
    if params == [] {
      assert params + [last] == [last];
      assert [last][1..] == [];
    } else {
      assert (params + [last])[0] == params[0] && (params + [last])[1..] == params[1..] + [last];
      SubstituteInOrder(ReplaceWord(query, params[0].0, ValueText(params[0].1)), params[1..], last);
    }
  }

  /** A key made of word characters that ends in one, as the placeholders `@user`, `@userId` are. */
  predicate PlainKey(key: string)
  {
    |key| > 0 && IsWordChar(key[|key| - 1]) && '@' !in key
  }

  /**
   * One string parameter: `@user` is quoted into place and `@userId` is left
   * as it is (`key` is `user`, `c` is `I`, `rest` is `d`).
   */
  lemma LongerNameUntouched(key: string, c: char, rest: string, v: string)
    requires PlainKey(key) && IsWordChar(c) && '@' !in rest
    ensures Substituted("@" + key + " " + ("@" + key + [c] + rest), [(key, Text(v))])
         == "'" + v + "'" + " " + ("@" + key + [c] + rest)
  {
    var text := ValueText(Text(v));
    var longer := "@" + key + [c] + rest;
    var tail := " " + longer;
    assert ReplaceWord([c] + rest, key, text) == [c] + rest;
    assert ReplaceWord(longer, key, text) == longer by {
      ReplaceWordMissesLongerName(key, c, rest, text);
    }
    assert ReplaceWord(tail, key, text) == tail by {
      ReplaceWordSkipsPrefix(" ", longer, key, text);
    }
    assert "@" + key + " " + longer == "@" + key + tail;
    ReplaceWordHit(key, tail, text);
    SubstituteOne("@" + key + tail, key, Text(v));
  }

  /**
   * Two string parameters in one query: key `a` leaves `@b` in place for key
   * `b`, so `@a = @b` ends with both values quoted into place.
   */
  lemma TwoPlaceholders(a: string, b: string, x: string, y: string)
    requires PlainKey(a) && PlainKey(b) && '@' !in b && !MatchesAt("@" + b, a)
    requires '@' !in x
    ensures Substituted(("@" + a + " = ") + ("@" + b), [(a, Text(x)), (b, Text(y))])
         == ("'" + x + "'" + " = ") + ("'" + y + "'")
  {
    var tx := ValueText(Text(x));
    var ty := ValueText(Text(y));
    var p := "@" + a + " = ";
    var q := "@" + b;
    // key `a`: its own placeholder is replaced, `@b` is copied
    ReplaceWordSplitAtAt(p, q, a, tx);
    assert p == "@" + a + " = ";
    ReplaceWordHit(a, " = ", tx);
    assert ReplaceWord(" = ", a, tx) == " = ";
    ReplaceWordOtherAt(b, a, tx);
    var mid := (tx + " = ") + q;
    assert ReplaceWord(p + q, a, tx) == mid;
    // key `b`: the text before `@b` holds no `@`
    ReplaceWordSplitAtAt(tx + " = ", q, b, ty);
    assert '@' !in tx + " = ";
    ReplaceWordHit(b, [], ty);
    assert q + [] == q;
    assert ReplaceWord([], b, ty) == [];
    assert ReplaceWord(mid, b, ty) == (tx + " = ") + ty;
    var ps := [(a, Text(x)), (b, Text(y))];
    assert ps[1..] == [(b, Text(y))];
    SubstituteOne(mid, b, Text(y));
  }

  /** A one-entry parameter list is one replace. */
  lemma SubstituteOne(query: string, key: string, v: ParamValue)
    ensures Substituted(query, [(key, v)]) == ReplaceWord(query, key, ValueText(v))
  {
    assert [(key, v)][1..] == [];
  }

  /**
   * Text inserted for an earlier key is visible to later keys: with `a`
   * replaced by the string `@b` and then `b` by a number, `@a` ends as the
   * quoted number.
   */
  lemma EarlierTextIsRescanned(a: string, b: string, n: int)
    requires PlainKey(a) && PlainKey(b)
    ensures Substituted("@" + a, [(a, Text("@" + b)), (b, Number(n))]) == "'" + IntText(n) + "'"
  {
    var t1 := ValueText(Text("@" + b));
    var t2 := ValueText(Number(n));
    assert "@" + a == "@" + a + "";
    ReplaceWordHit(a, "", t1);
    assert ReplaceWord("@" + a, a, t1) == t1;
    assert t1 == "'" + ("@" + b + "'");
    ReplaceWordSkipsPrefix("'", "@" + b + "'", b, t2);
    ReplaceWordHit(b, "'", t2);
    assert ReplaceWord(t1, b, t2) == "'" + IntText(n) + "'";
    var ps := [(a, Text("@" + b)), (b, Number(n))];
    assert ps == [(a, Text("@" + b))] + [(b, Number(n))];
    SubstituteInOrder("@" + a, [(a, Text("@" + b))], (b, Number(n)));
    SubstituteOne("@" + a, a, Text("@" + b));
  }
}
