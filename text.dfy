/**
 * Python string primitives that the workwise views rely on, written for
 * strings as sequences of Unicode scalar values (one `char` per code point,
 * as in Python 3).
 *   - IsSpace is Python's str.isspace() (also what `\s` in `re` matches),
 *   - Strip is str.strip() without arguments,
 *   - Split is str.split(sep) with a one-character separator,
 *   - Words is str.split() without arguments,
 *   - StartsWith is str.startswith / an anchored literal regex prefix.
 */
module Text {

  /** The characters for which Python's str.isspace() is true. */
  predicate IsSpace(c: char) {
    || c == ' '
    || ('\t' <= c <= '\r')                  // \t \n \v \f \r
    || ('\U{1C}' <= c <= '\U{1F}')          // file, group, record, unit separators
    || c == '\U{85}' || c == '\U{A0}' || c == '\U{1680}'
    || ('\U{2000}' <= c <= '\U{200A}')
    || c == '\U{2028}' || c == '\U{2029}' || c == '\U{202F}'
    || c == '\U{205F}' || c == '\U{3000}'
  }

  /** ASCII decimal digit (what `\d` matches on ASCII input). */
  predicate IsDigit(c: char) {
    '0' <= c <= '9'
  }

  /** ASCII letter. */
  predicate IsLetter(c: char) {
    ('a' <= c <= 'z') || ('A' <= c <= 'Z')
  }

  /** ASCII word character (what `\w` matches on ASCII input). */
  predicate IsWordChar(c: char) {
    IsLetter(c) || IsDigit(c) || c == '_'
  }

  predicate AllSpace(s: string) {
    forall i :: 0 <= i < |s| ==> IsSpace(s[i])
  }

  /** No whitespace at either end: the shape of every value str.strip() returns. */
  predicate Stripped(s: string) {
    s == [] || (!IsSpace(s[0]) && !IsSpace(s[|s| - 1]))
  }

  function TrimStart(s: string): (r: string)
    ensures |r| <= |s| && r == s[|s| - |r|..]
    ensures AllSpace(s[..|s| - |r|])
    ensures r == [] || !IsSpace(r[0])
    ensures r == [] <==> AllSpace(s)
    ensures s == [] || !IsSpace(s[0]) ==> r == s
  {
    if s != [] && IsSpace(s[0]) then
      var r := TrimStart(s[1..]);
      SpaceBefore(s, r);
      r
    else s
  }

  /** Dropping one more leading space keeps TrimStart's account of what it dropped. */
  lemma SpaceBefore(s: string, r: string)
    requires s != [] && IsSpace(s[0])
    requires |r| <= |s| - 1 && r == s[1..][|s| - 1 - |r|..]
    requires AllSpace(s[1..][..|s| - 1 - |r|])
    requires r == [] <==> AllSpace(s[1..])
    ensures r == s[|s| - |r|..] && AllSpace(s[..|s| - |r|])
    ensures r == [] <==> AllSpace(s)
  {
    assert s[..|s| - |r|] == [s[0]] + s[1..][..|s| - 1 - |r|];
  }

  function TrimEnd(s: string): (r: string)
    ensures |r| <= |s| && r == s[..|r|]
    ensures AllSpace(s[|r|..])
    ensures r == [] || !IsSpace(r[|r| - 1])
    ensures r == [] <==> AllSpace(s)
    ensures s == [] || !IsSpace(s[|s| - 1]) ==> r == s
  {
    if s != [] && IsSpace(s[|s| - 1]) then
      var r := TrimEnd(s[..|s| - 1]);
      SpaceAfter(s, r);
      r
    else s
  }

  /** Dropping one more trailing space keeps TrimEnd's account of what it dropped. */
  lemma SpaceAfter(s: string, r: string)
    requires s != [] && IsSpace(s[|s| - 1])
    requires |r| <= |s| - 1 && r == s[..|s| - 1][..|r|]
    requires AllSpace(s[..|s| - 1][|r|..])
    requires r == [] <==> AllSpace(s[..|s| - 1])
    ensures r == s[..|r|] && AllSpace(s[|r|..])
    ensures r == [] <==> AllSpace(s)
  {
    assert s[|r|..] == s[..|s| - 1][|r|..] + [s[|s| - 1]];
  }

  /** str.strip(): drop the whitespace at both ends and keep the middle. */
  function Strip(s: string): (r: string)
    ensures Stripped(r)
    ensures |r| <= |s|
    ensures r == [] <==> AllSpace(s)
    ensures Stripped(s) ==> r == s
  {
    var t := TrimStart(s);
    var r := TrimEnd(t);
    assert r != [] ==> r[0] == t[0];
    r
  }

  /** str.strip() keeps a contiguous middle of `s` and drops only whitespace on either side of it. */
  lemma StripIsMiddle(s: string)
    ensures MiddleOf(Strip(s), s)
  {
    var t := TrimStart(s);
    StripMiddle(s, t, TrimEnd(t));
  }

  /** `r` is a contiguous part of `s` with only whitespace around it. */
  predicate MiddleOf(r: string, s: string) {
    exists i :: 0 <= i <= |s| - |r| && r == s[i..i + |r|] && AllSpace(s[..i]) && AllSpace(s[i + |r|..])
  }

  /** What TrimStart and then TrimEnd drop is whitespace on either side of a contiguous middle. */
  lemma {:induction false} StripMiddle(s: string, t: string, r: string)
    requires |t| <= |s| && t == s[|s| - |t|..] && AllSpace(s[..|s| - |t|])
    requires |r| <= |t| && r == t[..|r|] && AllSpace(t[|r|..])
    ensures MiddleOf(r, s)
  {
    var i := |s| - |t|;
    assert s[i + |r|..] == t[|r|..];
    assert r == s[i..i + |r|];
  }

  /** A single trailing space after a stripped, non-empty value is removed again by Strip. */
  lemma {:induction false} StripTrailingSpace(p: string)
    requires p != [] && Stripped(p)
    ensures Strip(p + [' ']) == p
  {
    var s := p + [' '];
    assert s[0] == p[0];
    assert TrimStart(s) == s;
    assert s[..|s| - 1] == p;
    assert TrimEnd(s) == TrimEnd(p);
  }

  /** Stripping only removes characters: what is left was in `s`. */
  lemma StripKeepsCharacters(s: string)
    ensures forall c :: c in Strip(s) ==> c in s
  {
    var t := TrimStart(s);
    InMiddle(s, |s| - |t|, t, TrimEnd(t));
  }

  lemma InMiddle(s: string, a: nat, t: string, r: string)
    requires a <= |s| && t == s[a..] && |r| <= |t| && r == t[..|r|]
    ensures forall c :: c in r ==> c in s
  {
    forall c | c in r ensures c in s {
      var i :| 0 <= i < |r| && r[i] == c;
      assert s[a + i] == c;
    }
  }

  /** Stripping twice is stripping once. */
  lemma StripIdempotent(s: string)
    ensures Strip(Strip(s)) == Strip(s)
  {
  }

  /** A single leading separator space is removed again by Strip. */
  lemma {:induction false} StripLeadingSpace(p: string)
    requires Stripped(p)
    ensures Strip([' '] + p) == p
  {
    var s := [' '] + p;
    assert s[1..] == p;
    assert TrimStart(s) == TrimStart(p);
    if p != [] {
      assert TrimStart(p) == p;
    }
  }

  /** Position of the first occurrence of `c` in `s`. */
  function IndexOf(s: string, c: char): (i: nat)
    requires c in s
    ensures i < |s| && s[i] == c && c !in s[..i]
  {
    if s[0] == c then 0 else 1 + IndexOf(s[1..], c)
  }

  /** sep.join(parts) for a one-character separator. */
  function Join(parts: seq<string>, sep: char): string
    requires |parts| >= 1
  {
    if |parts| == 1 then parts[0] else parts[0] + [sep] + Join(parts[1..], sep)
  }

  /** str.split(sep) for a one-character separator: the pieces between separators. */
  function Split(s: string, sep: char): (parts: seq<string>)
    ensures |parts| >= 1
    ensures forall k :: 0 <= k < |parts| ==> sep !in parts[k]
    ensures |parts| >= 2 <==> sep in s
    ensures Join(parts, sep) == s
    decreases |s|
  {
    if sep !in s then [s]
    else
      var i := IndexOf(s, sep);
      var rest := Split(s[i + 1..], sep);
      assert s == s[..i] + [sep] + s[i + 1..];
      [s[..i]] + rest
  }

  /** Joining one more piece adds the separator and that piece at the end. */
  lemma {:induction false} JoinSnoc(parts: seq<string>, x: string, sep: char)
    requires |parts| >= 1
    ensures Join(parts + [x], sep) == Join(parts, sep) + [sep] + x
    decreases |parts|
  {
    assert (parts + [x])[1..] == parts[1..] + [x];
    if |parts| >= 2 {
      JoinSnoc(parts[1..], x, sep);
    }
  }

  /** A trailing separator adds one empty piece at the end. */
  lemma {:induction false} SplitSnocSep(s: string, sep: char)
    ensures Split(s + [sep], sep) == Split(s, sep) + [[]]
  {
    var ps := Split(s, sep);
    JoinSnoc(ps, [], sep);
    assert Join(ps + [[]], sep) == s + [sep];
    assert forall k :: 0 <= k < |ps + [[]]| ==> sep !in (ps + [[]])[k] by {
      forall k | 0 <= k < |ps + [[]]| ensures sep !in (ps + [[]])[k] {
        if k < |ps| {
          assert (ps + [[]])[k] == ps[k];
        }
      }
    }
    SplitOf(s + [sep], ps + [[]], sep);
  }

  /** Splitting a piece followed by the separator peels that piece off. */
  lemma SplitCons(a: string, sep: char, b: string)
    requires sep !in a
    ensures Split(a + [sep] + b, sep) == [a] + Split(b, sep)
  {
    var s := a + [sep] + b;
    assert s[..|a|] == a && s[|a|] == sep;
    assert s[|a| + 1..] == b;
  }

  /** str.split(sep) gives one piece more than there are separators. */
  lemma {:induction false} SplitCount(s: string, sep: char)
    ensures |Split(s, sep)| == multiset(s)[sep] + 1
    decreases |s|
  {
    if sep !in s {
      assert sep !in multiset(s);
    } else {
      var i := IndexOf(s, sep);
      assert s == s[..i] + [sep] + s[i + 1..];
      assert multiset(s) == multiset(s[..i]) + multiset{sep} + multiset(s[i + 1..]);
      assert sep !in multiset(s[..i]);
      SplitCount(s[i + 1..], sep);
    }
  }

  /** The first piece of a join, the separator after it, and the join of the rest. */
  lemma JoinFirst(parts: seq<string>, sep: char)
    requires |parts| >= 2
    ensures var s := Join(parts, sep);
      && |parts[0]| < |s| && s[..|parts[0]|] == parts[0] && s[|parts[0]|] == sep
      && s[|parts[0]| + 1..] == Join(parts[1..], sep)
  {
    var s := Join(parts, sep);
    assert s == parts[0] + [sep] + Join(parts[1..], sep);
    assert s[..|parts[0]|] == parts[0];
    assert s[|parts[0]| + 1..] == Join(parts[1..], sep);
  }

  /** Separator-free pieces are determined by their join. */
  lemma {:induction false} JoinUnique(a: seq<string>, b: seq<string>, sep: char)
    requires |a| >= 1 && |b| >= 1
    requires forall k :: 0 <= k < |a| ==> sep !in a[k]
    requires forall k :: 0 <= k < |b| ==> sep !in b[k]
    requires Join(a, sep) == Join(b, sep)
    ensures a == b
    decreases |a|
  {
    var s := Join(a, sep);
    if |a| == 1 && |b| >= 2 {
      JoinFirst(b, sep);
    } else if |b| == 1 && |a| >= 2 {
      JoinFirst(a, sep);
    } else if |a| >= 2 && |b| >= 2 {
      JoinFirst(a, sep);
      JoinFirst(b, sep);
      var i, j := |a[0]|, |b[0]|;
      assert a[0] == b[0];
      JoinUnique(a[1..], b[1..], sep);
      assert a == [a[0]] + a[1..] && b == [b[0]] + b[1..];
    }
  }

  /** Split is the only separator-free way to cut `s` at its separators. */
  lemma SplitOf(s: string, parts: seq<string>, sep: char)
    requires |parts| >= 1 && Join(parts, sep) == s
    requires forall k :: 0 <= k < |parts| ==> sep !in parts[k]
    ensures Split(s, sep) == parts
  {
    JoinUnique(Split(s, sep), parts, sep);
  }

  /** A character other than the separator in front of `s` joins the first piece. */
  lemma {:induction false} SplitPrepend(c: char, s: string, sep: char)
    requires c != sep
    ensures var ps := Split(s, sep);
      Split([c] + s, sep) == [[c] + ps[0]] + ps[1..]
  {
    var ps := Split(s, sep);
    var qs := [[c] + ps[0]] + ps[1..];
    assert qs[1..] == ps[1..];
    if |ps| == 1 {
      assert Join(qs, sep) == [c] + s;
    } else {
      assert Join(qs, sep) == ([c] + ps[0]) + [sep] + Join(ps[1..], sep);
      assert Join(ps, sep) == ps[0] + [sep] + Join(ps[1..], sep);
      assert Join(qs, sep) == [c] + s;
    }
    forall k | 0 <= k < |qs| ensures sep !in qs[k] {
      if k == 0 {
        assert sep !in ps[0];
      } else {
        assert qs[k] == ps[k];
      }
    }
    SplitOf([c] + s, qs, sep);
  }

  /** joiner.join(parts) for a string joiner such as ", ". */
  function JoinWith(parts: seq<string>, joiner: string): string {
    if |parts| == 0 then ""
    else if |parts| == 1 then parts[0]
    else parts[0] + joiner + JoinWith(parts[1..], joiner)
  }

  /** Length of the run of non-whitespace characters that starts `s`. */
  function WordLength(s: string): (k: nat)
    ensures k <= |s|
    ensures forall i :: 0 <= i < k ==> !IsSpace(s[i])
    ensures k < |s| ==> IsSpace(s[k])
  {
    if s == [] || IsSpace(s[0]) then 0 else 1 + WordLength(s[1..])
  }

  /** The non-whitespace characters of `s`, in order. */
  function NonSpace(s: string): string {
    if s == [] then [] else (if IsSpace(s[0]) then [] else [s[0]]) + NonSpace(s[1..])
  }

  function Concat(ws: seq<string>): string {
    if ws == [] then [] else ws[0] + Concat(ws[1..])
  }

  lemma {:induction false} NonSpaceAppend(a: string, b: string)
    ensures NonSpace(a + b) == NonSpace(a) + NonSpace(b)
  {
    if a != [] {
      assert (a + b)[1..] == a[1..] + b;
      NonSpaceAppend(a[1..], b);
    } else {
      assert a + b == b;
    }
  }

  lemma {:induction false} NonSpaceOfWord(w: string)
    requires forall i :: 0 <= i < |w| ==> !IsSpace(w[i])
    ensures NonSpace(w) == w
  {
    if w != [] {
      NonSpaceOfWord(w[1..]);
    }
  }

  lemma {:induction false} NonSpaceOfBlank(s: string)
    requires AllSpace(s)
    ensures NonSpace(s) == []
  {
    if s != [] {
      NonSpaceOfBlank(s[1..]);
    }
  }

  /**
   * str.split() with no argument: the maximal runs of non-whitespace.
   * Each word is non-empty and whitespace-free, and since words need a
   * separator between them there are at most (|s| + 1) / 2 of them; a string
   * that starts with whitespace has at most |s| / 2.
   */
  function Words(s: string): (ws: seq<string>)
    ensures forall k :: 0 <= k < |ws| ==> ws[k] != [] && forall i :: 0 <= i < |ws[k]| ==> !IsSpace(ws[k][i])
    ensures |ws| <= (|s| + 1) / 2
    ensures s != [] && IsSpace(s[0]) ==> |ws| <= |s| / 2
    ensures ws == [] <==> AllSpace(s)
    decreases |s|
  {
    if s == [] then []
    else if IsSpace(s[0]) then Words(s[1..])
    else
      var k := WordLength(s);
      [s[..k]] + Words(s[k..])
  }

  /** The words, run together, are exactly the non-whitespace characters of `s`. */
  lemma {:induction false} WordsSpellNonSpace(s: string)
    ensures Concat(Words(s)) == NonSpace(s)
    decreases |s|
  {
    if s == [] {
    } else if IsSpace(s[0]) {
      WordsSpellNonSpace(s[1..]);
      assert s == [s[0]] + s[1..];
      NonSpaceAppend([s[0]], s[1..]);
    } else {
      var k := WordLength(s);
      WordsSpellNonSpace(s[k..]);
      assert s == s[..k] + s[k..];
      NonSpaceAppend(s[..k], s[k..]);
      NonSpaceOfWord(s[..k]);
      assert Words(s)[1..] == Words(s[k..]);
    }
  }

  /** s.startswith(p); also what an anchored regex literal `^p` tests. */
  predicate StartsWith(s: string, p: string) {
    |p| <= |s| && s[..|p|] == p
  }
}
