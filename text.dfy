/** Wrappers: the optional value used where JavaScript has `undefined`. */
module Wrappers {
  datatype Option<+T> = None | Some(value: T)
}

/**
 String facts shared by the command-line layer and the generator: the white-space
 class used by JavaScript's `String.prototype.trim` and by the regular-expression
 class `\s`, trimming, prefixes, sub-strings, ASCII lower-casing and joining
 sentences with spaces.
 */
module Text {

  /** The characters ECMAScript counts as WhiteSpace or LineTerminator (the set
      behind both `trim()` and `\s`): tab, LF, VT, FF, CR, space, NBSP, the
      Unicode space separators, LS, PS and the byte-order mark. */
  predicate IsWS(c: char) {
    || c == '\t' || c == '\n' || c == '\U{000B}' || c == '\U{000C}' || c == '\r'
    || c == ' ' || c == '\U{00A0}' || c == '\U{1680}'
    || ('\U{2000}' <= c <= '\U{200A}')
    || c == '\U{2028}' || c == '\U{2029}' || c == '\U{202F}' || c == '\U{205F}'
    || c == '\U{3000}' || c == '\U{FEFF}'
  }

  predicate AllWS(s: string) {
    forall i :: 0 <= i < |s| ==> IsWS(s[i])
  }

  predicate NoWS(s: string) {
    forall i :: 0 <= i < |s| ==> !IsWS(s[i])
  }

  /** `s.startsWith(prefix)` */
  predicate StartsWith(s: string, prefix: string) {
    |prefix| <= |s| && s[..|prefix|] == prefix
  }

  /** `t` occurs somewhere in `s` as a contiguous piece. */
  predicate Contains(s: string, t: string) {
    exists k :: 0 <= k <= |s| && StartsWith(s[k..], t)
  }

  lemma NoWSAppend(a: string, b: string)
    ensures NoWS(a + b) <==> NoWS(a) && NoWS(b)
  {
    if NoWS(a) && NoWS(b) {
      forall i | 0 <= i < |a + b| ensures !IsWS((a + b)[i]) {
        if i >= |a| { assert (a + b)[i] == b[i - |a|]; }
      }
    }
    if NoWS(a + b) {
      forall i | 0 <= i < |a| ensures !IsWS(a[i]) {
        assert (a + b)[i] == a[i];
      }
      forall i | 0 <= i < |b| ensures !IsWS(b[i]) {
        assert (a + b)[|a| + i] == b[i];
      }
    }
  }

  lemma ContainsMiddle(a: string, t: string, b: string)
    ensures Contains(a + t + b, t)
  {
    var s := a + t + b;
    assert s[|a|..][..|t|] == t;
    assert StartsWith(s[|a|..], t);
  }

  lemma ContainsTransitive(s: string, t: string, u: string)
    requires Contains(s, t) && Contains(t, u)
    ensures Contains(s, u)
  {
    var k1 :| 0 <= k1 <= |s| && StartsWith(s[k1..], t);
    var k2 :| 0 <= k2 <= |t| && StartsWith(t[k2..], u);
    assert t == s[k1..k1 + |t|];
    assert u == t[k2..k2 + |u|];
    forall j | 0 <= j < |u| ensures s[k1 + k2 + j] == u[j] {
      assert u[j] == t[k2 + j] == s[k1 + k2 + j];
    }
    assert s[k1 + k2..][..|u|] == u;
    assert StartsWith(s[k1 + k2..], u);
  }

  /** Drops the leading white space; what remains is a suffix of `s` that is empty
      or starts with a non-white-space character. */
  function TrimStart(s: string): (r: string)
    ensures |r| <= |s| && r == s[|s| - |r|..]
    ensures AllWS(s[..|s| - |r|])
    ensures r == [] || !IsWS(r[0])
  {
    if s != [] && IsWS(s[0]) then
      var r := TrimStart(s[1..]);
      assert s[..|s| - |r|] == [s[0]] + s[1..][..|s| - 1 - |r|];
      r
    else s
  }

  /** Drops the trailing white space; what remains is a prefix of `s` that is empty
      or ends with a non-white-space character. */
  function TrimEnd(s: string): (r: string)
    ensures |r| <= |s| && r == s[..|r|]
    ensures AllWS(s[|r|..])
    ensures r == [] || !IsWS(r[|r| - 1])
  {
    if s != [] && IsWS(s[|s| - 1]) then
      var r := TrimEnd(s[..|s| - 1]);
      assert s[|r|..] == s[..|s| - 1][|r|..] + [s[|s| - 1]];
      r
    else s
  }

  /** `r` is `s` with its first `i` characters and the characters after `r`
      removed, all of them white space. */
  predicate StripsAround(s: string, r: string, i: int) {
    0 <= i <= |s| - |r| && r == s[i..i + |r|] && AllWS(s[..i]) && AllWS(s[i + |r|..])
  }

  /** `s.trim()`: empty exactly when `s` is all white space, and otherwise the
      piece of `s` that neither starts nor ends with white space and around
      which everything removed is white space. */
  function Trim(s: string): (r: string)
    ensures r == [] <==> AllWS(s)
    ensures r != [] ==> !IsWS(r[0]) && !IsWS(r[|r| - 1])
    ensures exists i :: StripsAround(s, r, i)
    ensures Contains(s, r)
  {
    TrimFacts(s);
    TrimEnd(TrimStart(s))
  }

  lemma TrimFacts(s: string)
    ensures TrimEnd(TrimStart(s)) == [] <==> AllWS(s)
    ensures exists i :: StripsAround(s, TrimEnd(TrimStart(s)), i)
    ensures Contains(s, TrimEnd(TrimStart(s)))
  {
    TrimEmpty(s);
    TrimContained(s);
    TrimRemovesOnlyWS(s);
  }

  /** What `trim()` removes, before and after what it keeps, is white space. */
  lemma TrimRemovesOnlyWS(s: string)
    ensures exists i :: StripsAround(s, TrimEnd(TrimStart(s)), i)
  {
    var t := TrimStart(s);
    var r := TrimEnd(t);
    var i := |s| - |t|;
    assert AllWS(s[..i]);
    assert r == s[i..i + |r|] by { assert t[..|r|] == s[i..i + |r|]; }
    assert AllWS(s[i + |r|..]) by { assert s[i + |r|..] == t[|r|..]; }
    assert StripsAround(s, r, i);
  }

  lemma TrimEmpty(s: string)
    ensures TrimEnd(TrimStart(s)) == [] <==> AllWS(s)
  {
    TrimEmptyOnlyIfBlank(s);
    TrimBlankIsEmpty(s);
  }

  lemma TrimEmptyOnlyIfBlank(s: string)
    ensures TrimEnd(TrimStart(s)) == [] ==> AllWS(s)
  {
    var t := TrimStart(s);
    if TrimEnd(t) == [] {
      assert t[0..] == t;
      assert t == [];
      assert s[..|s|] == s;
    }
  }

  lemma TrimBlankIsEmpty(s: string)
    ensures AllWS(s) ==> TrimEnd(TrimStart(s)) == []
  {
    var t := TrimStart(s);
    var r := TrimEnd(t);
    if r != [] {
      assert r[0] == t[0] == s[|s| - |t|];
    }
  }

  lemma TrimContained(s: string)
    ensures Contains(s, TrimEnd(TrimStart(s)))
  {
    var t := TrimStart(s);
    var r := TrimEnd(t);
    assert t[..|r|] == r;
    assert StartsWith(s[|s| - |t|..], r);
  }

  /** ASCII upper-case letters map to lower case; every other character is kept. */
  function LowerChar(c: char): char {
    if 'A' <= c <= 'Z' then (c as int + 32) as char else c
  }

  /** `s.toLowerCase()` on the ASCII letters (the only ones the style labels use). */
  function ToLower(s: string): (r: string)
    ensures |r| == |s|
    ensures forall i :: 0 <= i < |s| ==> r[i] == LowerChar(s[i]) && !('A' <= r[i] <= 'Z')
  {
    seq(|s|, i requires 0 <= i < |s| => LowerChar(s[i]))
  }

  /** The sentences joined with one space between neighbours. */
  function Join(ss: seq<string>): string {
    if |ss| == 0 then ""
    else if |ss| == 1 then ss[0]
    else ss[0] + " " + Join(ss[1..])
  }

  lemma JoinStartsWith(ss: seq<string>)
    requires |ss| > 0
    ensures StartsWith(Join(ss), ss[0])
  {
    if |ss| > 1 {
      assert (ss[0] + " " + Join(ss[1..]))[..|ss[0]|] == ss[0];
    }
  }

  /** Every sentence occurs in the joined text. */
  lemma {:induction false} JoinContains(ss: seq<string>, i: nat)
    requires i < |ss|
    ensures Contains(Join(ss), ss[i])
  {
    if |ss| == 1 {
      ContainsMiddle("", ss[0], "");
      assert "" + ss[0] + "" == ss[0];
    } else if i == 0 {
      ContainsMiddle("", ss[0], " " + Join(ss[1..]));
      assert "" + ss[0] + (" " + Join(ss[1..])) == Join(ss);
    } else {
      JoinContains(ss[1..], i - 1);
      ContainsMiddle(ss[0] + " ", Join(ss[1..]), "");
      assert ss[0] + " " + Join(ss[1..]) + "" == Join(ss);
      ContainsTransitive(Join(ss), Join(ss[1..]), ss[i]);
    }
  }
}
