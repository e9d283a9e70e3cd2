/** The three JavaScript string operations the chat core relies on:
    `String.prototype.trim`, `String.prototype.split` with a one-character
    separator, and `Array.prototype.join`, over strings as `seq<char>`. */
module JsString {

  /** The ECMAScript WhiteSpace and LineTerminator code points (the Zs
      category included): exactly the characters `trim` strips from both
      ends of a string. */
  const WhitespaceChars: set<char> := {
    '\t', '\U{000B}', '\U{000C}', ' ', '\U{00A0}', '\U{FEFF}', '\U{1680}',
    '\U{2000}', '\U{2001}', '\U{2002}', '\U{2003}', '\U{2004}', '\U{2005}',
    '\U{2006}', '\U{2007}', '\U{2008}', '\U{2009}', '\U{200A}',
    '\U{202F}', '\U{205F}', '\U{3000}',
    '\n', '\r', '\U{2028}', '\U{2029}'
  }

  predicate IsWhitespace(c: char) {
    c in WhitespaceChars
  }

  predicate AllWhitespace(s: string) {
    forall i :: 0 <= i < |s| ==> IsWhitespace(s[i])
  }

  /** Neither end of `s` is whitespace (vacuously true of ""). */
  predicate IsTrimmed(s: string) {
    s == [] || (!IsWhitespace(s[0]) && !IsWhitespace(s[|s| - 1]))
  }

  /** The index of the first non-whitespace character at or after `i`
      (`|s|` if there is none). */
  function SkipLeading(s: string, i: nat): (k: nat)
    requires i <= |s|
    ensures i <= k <= |s|
    ensures forall j :: i <= j < k ==> IsWhitespace(s[j])
    ensures k == |s| || !IsWhitespace(s[k])
    decreases |s| - i
  {
    if i < |s| && IsWhitespace(s[i]) then SkipLeading(s, i + 1) else i
  }

  /** The end of `s[lo..hi]` once the whitespace at its end is dropped:
      every character in `s[k..hi]` is whitespace and `s[k - 1]` is not,
      unless the range is used up. */
  function SkipTrailing(s: string, lo: nat, hi: nat): (k: nat)
    requires lo <= hi <= |s|
    ensures lo <= k <= hi
    ensures forall j :: k <= j < hi ==> IsWhitespace(s[j])
    ensures k == lo || !IsWhitespace(s[k - 1])
    decreases hi
  {
    if hi > lo && IsWhitespace(s[hi - 1]) then SkipTrailing(s, lo, hi - 1) else hi
  }

  /** `trimEnd`: `s` without the whitespace at its end. */
  function TrimEnd(s: string): (r: string)
    ensures |r| <= |s| && r == s[..|r|]
    ensures AllWhitespace(s[|r|..])
    ensures r == [] || !IsWhitespace(r[|r| - 1])
  {
    var k := SkipTrailing(s, 0, |s|);
    assert forall j :: 0 <= j < |s| - k ==> s[k..][j] == s[k + j];
    s[..k]
  }

  /** `trim`: `s` without the whitespace at either end. The result is the
      trimmed infix of `s` around which there is only whitespace. */
  function Trim(s: string): (r: string)
    ensures IsTrimmed(r)
    ensures r == [] <==> AllWhitespace(s)
    ensures IsTrimmed(s) ==> r == s
    ensures forall c :: c in r ==> c in s
  {
    var i := SkipLeading(s, 0);
    var k := SkipTrailing(s, i, |s|);
    assert AllWhitespace(s) ==> i == |s|;
    assert i == |s| ==> AllWhitespace(s);
    assert IsTrimmed(s) && s != [] ==> i == 0 && k == |s|;
    s[i..k]
  }

  /** JavaScript's `!s.trim()`: the string is empty or only whitespace. */
  predicate IsBlank(s: string) {
    Trim(s) == ""
  }

  /** What `trim` removes is whitespace on either side of an infix. */
  lemma TrimIsInfix(s: string)
    ensures exists i :: 0 <= i <= |s| - |Trim(s)| && s[i..i + |Trim(s)|] == Trim(s)
                        && AllWhitespace(s[..i]) && AllWhitespace(s[i + |Trim(s)|..])
  {
    var i := SkipLeading(s, 0);
    var k := SkipTrailing(s, i, |s|);
    assert Trim(s) == s[i..k];
    assert forall j :: 0 <= j < i ==> s[..i][j] == s[j];
    assert forall j :: 0 <= j < |s| - k ==> s[k..][j] == s[k + j];
  }

  /** Whitespace, then a trimmed non-empty head, then anything: `trim`
      drops the leading whitespace, keeps the head whole and trims only
      the end of what follows it. */
  lemma TrimAroundHead(w: string, h: string, t: string)
    requires AllWhitespace(w)
    requires h != [] && IsTrimmed(h)
    ensures Trim(w + h + t) == h + TrimEnd(t)
  {
    var s := w + h + t;
    var e := SkipTrailing(t, 0, |t|);
    assert forall j :: 0 <= j < |w| ==> s[j] == w[j];
    assert s[|w|] == h[0];
    assert SkipLeading(s, 0) == |w|;
    var k := |w| + |h| + e;
    assert forall j :: k <= j < |s| ==> s[j] == t[j - |w| - |h|];
    assert e == 0 ==> s[k - 1] == h[|h| - 1];
    assert e > 0 ==> s[k - 1] == t[e - 1];
    assert SkipTrailing(s, |w|, |s|) == k;
    assert s[|w|..k] == h + t[..e];
  }

  /** `trimEnd` never reaches into a prefix that ends in a non-whitespace
      character: it only trims what comes after it. */
  lemma TrimEndKeepsPrefix(p: string, t: string)
    requires p != [] && !IsWhitespace(p[|p| - 1])
    ensures TrimEnd(p + t) == p + TrimEnd(t)
  {
    var s := p + t;
    var e := SkipTrailing(t, 0, |t|);
    var k := |p| + e;
    assert forall j :: k <= j < |s| ==> s[j] == t[j - |p|];
    assert e == 0 ==> s[k - 1] == p[|p| - 1];
    assert e > 0 ==> s[k - 1] == t[e - 1];
    assert SkipTrailing(s, 0, |s|) == k;
    assert s[..k] == p + t[..e];
  }

  /** An all-whitespace tail makes no difference to `trimEnd`: it is
      dropped along with whatever whitespace ends the string before it. */
  lemma TrimEndOfWhitespaceTail(p: string, t: string)
    requires AllWhitespace(t)
    ensures TrimEnd(p + t) == TrimEnd(p)
  {
    var s := p + t;
    var e := SkipTrailing(p, 0, |p|);
    assert forall j :: e <= j < |s| ==> IsWhitespace(s[j]) by {
      forall j | e <= j < |s| ensures IsWhitespace(s[j]) {
        if j < |p| { assert s[j] == p[j]; } else { assert s[j] == t[j - |p|]; }
      }
    }
    assert e > 0 ==> s[e - 1] == p[e - 1];
    assert SkipTrailing(s, 0, |s|) == e;
    assert s[..e] == p[..e];
  }

  /** A single space in front of a non-empty trimmed string is all `trim`
      removes. */
  lemma TrimAfterSpace(x: string)
    requires x != "" && IsTrimmed(x)
    ensures Trim(" " + x) == x
  {
    TrimAroundHead(" ", x, "");
    assert " " + x + "" == " " + x;
  }

  /** Number of occurrences of `c` in `s`. */
  function Occurrences(s: string, c: char): nat {
    if s == [] then 0 else (if s[0] == c then 1 else 0) + Occurrences(s[1..], c)
  }

  /** `s.split(sep)` for a one-character separator: the maximal
      separator-free segments, one more than there are separators
      (`"".split(",")` is `[""]`). */
  function Split(s: string, sep: char): (parts: seq<string>)
    ensures |parts| == Occurrences(s, sep) + 1
    ensures forall i :: 0 <= i < |parts| ==> sep !in parts[i]
    decreases |s|
  {
    if s == [] then [""]
    else
      var rest := Split(s[1..], sep);
      if s[0] == sep then [""] + rest
      else [[s[0]] + rest[0]] + rest[1..]
  }

  /** The combined length of the parts. */
  function TotalLength(parts: seq<string>): nat {
    if parts == [] then 0 else |parts[0]| + TotalLength(parts[1..])
  }

  /** `parts.join(sep)`; `[].join(sep)` is "". */
  function Join(parts: seq<string>, sep: string): string {
    if |parts| == 0 then ""
    else if |parts| == 1 then parts[0]
    else parts[0] + sep + Join(parts[1..], sep)
  }

  /** A join holds every part and one separator between each two
      neighbours, and nothing else. */
  lemma {:induction false} JoinLength(parts: seq<string>, sep: string)
    ensures |Join(parts, sep)| == TotalLength(parts) + (if parts == [] then 0 else (|parts| - 1) * |sep|)
    decreases |parts|
  {
    if |parts| > 1 {
      JoinLength(parts[1..], sep);
    }
  }

  /** Joining keeps the parts in order: appending a part appends one
      separator and that part. */
  lemma {:induction false} JoinSnoc(parts: seq<string>, x: string, sep: string)
    requires parts != []
    ensures Join(parts + [x], sep) == Join(parts, sep) + sep + x
    decreases |parts|
  {
    if |parts| > 1 {
      assert (parts + [x])[1..] == parts[1..] + [x];
      JoinSnoc(parts[1..], x, sep);
    }
  }

  /** A separator-free prefix is glued onto the first segment. */
  lemma {:induction false} SplitFreePrefix(x: string, t: string, sep: char)
    requires sep !in x
    ensures Split(x + t, sep) == [x + Split(t, sep)[0]] + Split(t, sep)[1..]
    decreases |x|
  {
    if x != [] {
      assert (x + t)[1..] == x[1..] + t;
      SplitFreePrefix(x[1..], t, sep);
      assert [x[0]] + (x[1..] + Split(t, sep)[0]) == x + Split(t, sep)[0];
    } else {
      assert x + t == t;
      assert x + Split(t, sep)[0] == Split(t, sep)[0];
      assert Split(t, sep) == [Split(t, sep)[0]] + Split(t, sep)[1..];
    }
  }

  /** A separator splits the string in two: the segments before it, then
      the segments after it. */
  lemma {:induction false} SplitAtSeparator(x: string, y: string, sep: char)
    ensures Split(x + [sep] + y, sep) == Split(x, sep) + Split(y, sep)
    decreases |x|
  {
    var s := x + [sep] + y;
    if x == [] {
      assert s == [sep] + y;
      assert s[1..] == y;
    } else {
      assert s[1..] == x[1..] + [sep] + y;
      SplitAtSeparator(x[1..], y, sep);
      var rest := Split(x[1..], sep);
      assert Split(s[1..], sep) == rest + Split(y, sep);
      if x[0] != sep {
        assert (rest + Split(y, sep))[0] == rest[0];
        assert (rest + Split(y, sep))[1..] == rest[1..] + Split(y, sep);
      }
    }
  }

  /** Splitting a join of separator-free parts gives the parts back. */
  lemma {:induction false} SplitJoin(parts: seq<string>, sep: char)
    requires parts != []
    requires forall i :: 0 <= i < |parts| ==> sep !in parts[i]
    ensures Split(Join(parts, [sep]), sep) == parts
    decreases |parts|
  {
    if |parts| == 1 {
      SplitFreePrefix(parts[0], "", sep);
      assert parts[0] + "" == parts[0];
    } else {
      var tail := Join(parts[1..], [sep]);
      SplitJoin(parts[1..], sep);
      assert Join(parts, [sep]) == parts[0] + ([sep] + tail);
      SplitFreePrefix(parts[0], [sep] + tail, sep);
      assert ([sep] + tail)[1..] == tail;
      assert Split([sep] + tail, sep) == [""] + parts[1..];
      assert parts[0] + "" == parts[0];
    }
  }

  /** Joining the segments of a split with the separator gives the string
      back. */
  lemma {:induction false} JoinSplit(s: string, sep: char)
    ensures Join(Split(s, sep), [sep]) == s
    decreases |s|
  {
    if s != [] {
      var rest := Split(s[1..], sep);
      JoinSplit(s[1..], sep);
      if s[0] == sep {
        assert s == [sep] + s[1..];
      } else if |rest| == 1 {
        assert s == [s[0]] + s[1..];
      } else {
        assert rest == [rest[0]] + rest[1..];
        assert Join(rest, [sep]) == rest[0] + [sep] + Join(rest[1..], [sep]);
        assert s == [s[0]] + s[1..];
      }
    }
  }
}
