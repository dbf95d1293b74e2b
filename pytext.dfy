/**
 The string operations of Python that the core relies on, over `seq<char>`:
 `str.split()`, `str.startswith`, `in` on strings, `str.strip`, `str.replace`,
 `str.split(sep)[0]`, `str()` of an integer and `int()` of a word.
 */
module PyText {
  import opened Wrappers

  /** `str.isspace()` on ASCII: space, tab, line feed, vertical tab, form feed,
      carriage return and the separators U+001C to U+001F. */
  predicate IsSpace(c: char) {
    c == ' ' || ('\t' <= c <= '\r') || ('\U{001C}' <= c <= '\U{001F}')
  }

  predicate IsDigit(c: char) {
    '0' <= c <= '9'
  }

  predicate NoSpace(w: string) {
    forall i :: 0 <= i < |w| ==> !IsSpace(w[i])
  }

  predicate StartsWith(s: string, prefix: string) {
    |prefix| <= |s| && s[..|prefix|] == prefix
  }

  /** `sub in s`. */
  predicate Contains(s: string, sub: string)
    decreases |s|
  {
    |sub| <= |s| && (s[..|sub|] == sub || Contains(s[1..], sub))
  }

  /** A prefix none of whose characters can start `sub` adds no occurrence of `sub`. */
  lemma {:induction false} ContainsSkip(pre: string, t: string, sub: string)
    requires |sub| > 0 && forall i :: 0 <= i < |pre| ==> pre[i] != sub[0]
    ensures Contains(pre + t, sub) <==> Contains(t, sub)
    decreases |pre|
  {
    if pre != [] {
      var s := pre + t;
      if |sub| <= |s| {
        assert s[..|sub|][0] == pre[0];
      }
      assert s[1..] == pre[1..] + t;
      ContainsSkip(pre[1..], t, sub);
    } else {
      assert pre + t == t;
    }
  }

  /** `sub in pre + sub + post`. */
  lemma {:induction false} ContainsMiddle(pre: string, sub: string, post: string)
    ensures Contains(pre + sub + post, sub)
    decreases |pre|
  {
    var s := pre + sub + post;
    if pre == [] {
      assert s[..|sub|] == sub;
    } else {
      assert s[1..] == pre[1..] + sub + post;
      ContainsMiddle(pre[1..], sub, post);
    }
  }

  /** Position `i` of `s` cannot start an occurrence of `sub`: its first or second character differs. */
  predicate MissAt(s: string, sub: string, i: int)
    requires 0 <= i < |s| && |sub| > 0
  {
    s[i] != sub[0] || (i + 1 < |s| && |sub| > 1 && s[i + 1] != sub[1])
  }

  /** When no position can start `sub`, `sub in s` is false. */
  lemma {:induction false} Absent(s: string, sub: string)
    requires |sub| > 0
    requires forall i :: 0 <= i < |s| ==> MissAt(s, sub, i)
    ensures !Contains(s, sub)
    decreases |s|
  {
    if |sub| <= |s| {
      assert MissAt(s, sub, 0);
      if s[0] == sub[0] {
        assert s[..|sub|][1] == s[1];
      } else {
        assert s[..|sub|][0] == s[0];
      }
      forall i | 0 <= i < |s[1..]|
        ensures MissAt(s[1..], sub, i)
      {
        assert MissAt(s, sub, i + 1);
      }
      Absent(s[1..], sub);
    }
  }

  /** Drops the characters at the front of `s` that satisfy `drop`. */
  function LStrip(s: string, drop: char -> bool): (r: string)
    ensures |r| <= |s| && r == s[|s| - |r|..]
    ensures forall i :: 0 <= i < |s| - |r| ==> drop(s[i])
    ensures r == [] || !drop(r[0])
  {
    if s != [] && drop(s[0]) then LStrip(s[1..], drop) else s
  }

  /** Drops the characters at the back of `s` that satisfy `drop`. */
  function RStrip(s: string, drop: char -> bool): (r: string)
    ensures |r| <= |s| && r == s[..|r|]
    ensures forall i :: |r| <= i < |s| ==> drop(s[i])
    ensures r == [] || !drop(r[|r| - 1])
  {
    if s != [] && drop(s[|s| - 1]) then RStrip(s[..|s| - 1], drop) else s
  }

  /** `str.strip`: removes the dropped characters from both ends. */
  function Strip(s: string, drop: char -> bool): (r: string)
    ensures r == [] || (!drop(r[0]) && !drop(r[|r| - 1]))
  {
    RStrip(LStrip(s, drop), drop)
  }

  /** The stripped text is the slice of `s` at offset `i`, and everything outside that slice
      was dropped. */
  lemma StripIsSlice(s: string, drop: char -> bool) returns (i: nat)
    ensures StrippedAt(s, i, Strip(s, drop), drop)
  {
    var t := LStrip(s, drop);
    i := |s| - |t|;
    SliceJoin(s, i, t, RStrip(t, drop), drop);
  }

  /** The two runs stripped around a slice: `t` is the suffix of `s` at `i` after a dropped
      run, and `r` the prefix of `t` before a dropped run. */
  lemma SliceJoin(s: string, i: nat, t: string, r: string, drop: char -> bool)
    requires i <= |s| && t == s[i..] && (forall j :: 0 <= j < i ==> drop(s[j]))
    requires |r| <= |t| && r == t[..|r|] && (forall j :: |r| <= j < |t| ==> drop(t[j]))
    ensures StrippedAt(s, i, r, drop)
  {
    assert r == s[i..i + |r|];
    forall j | i + |r| <= j < |s|
      ensures drop(s[j])
    {
      assert s[j] == t[j - i];
    }
  }

  /** `r` is the slice of `s` at `i`, with only dropped characters before and after it. */
  predicate StrippedAt(s: string, i: int, r: string, drop: char -> bool) {
    0 <= i && i + |r| <= |s| && r == s[i..i + |r|]
    && (forall j :: 0 <= j < i ==> drop(s[j]))
    && (forall j :: i + |r| <= j < |s| ==> drop(s[j]))
  }

  /** Stripping takes off exactly the dropped run at each end and keeps the middle whole:
      for `s == pre + mid + post`, with `pre` and `post` made of dropped characters and
      `mid` neither starting nor ending with one, the result is `mid`. */
  lemma {:induction false} StripExact(pre: string, mid: string, post: string, drop: char -> bool)
    requires forall i :: 0 <= i < |pre| ==> drop(pre[i])
    requires forall i :: 0 <= i < |post| ==> drop(post[i])
    requires mid == [] || (!drop(mid[0]) && !drop(mid[|mid| - 1]))
    ensures Strip(pre + mid + post, drop) == mid
  {
    if mid == [] {
      assert pre + mid + post == (pre + post) + [];
      LStripDrops(pre + post, [], drop);
    } else {
      assert pre + mid + post == pre + (mid + post);
      LStripDrops(pre, mid + post, drop);
      RStripDrops(mid, post, drop);
    }
  }

  lemma {:induction false} LStripDrops(pre: string, rest: string, drop: char -> bool)
    requires forall i :: 0 <= i < |pre| ==> drop(pre[i])
    requires rest == [] || !drop(rest[0])
    ensures LStrip(pre + rest, drop) == rest
    decreases |pre|
  {
    if pre != [] {
      assert (pre + rest)[1..] == pre[1..] + rest;
      LStripDrops(pre[1..], rest, drop);
    } else {
      assert pre + rest == rest;
    }
  }

  lemma {:induction false} RStripDrops(rest: string, post: string, drop: char -> bool)
    requires forall i :: 0 <= i < |post| ==> drop(post[i])
    requires rest == [] || !drop(rest[|rest| - 1])
    ensures RStrip(rest + post, drop) == rest
    decreases |post|
  {
    if post != [] {
      assert (rest + post)[..|rest + post| - 1] == rest + post[..|post| - 1];
      RStripDrops(rest, post[..|post| - 1], drop);
    } else {
      assert rest + post == rest;
    }
  }

  /** Length of the leading run of non-whitespace characters. */
  function WordEnd(s: string): (n: nat)
    ensures n <= |s| && NoSpace(s[..n])
    ensures n == |s| || IsSpace(s[n])
  {
    if s == [] || IsSpace(s[0]) then 0 else 1 + WordEnd(s[1..])
  }

  /** `str.split()` with no separator: the maximal runs of non-whitespace, in order. */
  function Split(s: string): (ws: seq<string>)
    ensures forall k :: 0 <= k < |ws| ==> ws[k] != [] && NoSpace(ws[k])
    decreases |s|
  {
    var t := LStrip(s, IsSpace);
    if t == [] then []
    else
      var n := WordEnd(t);
      var rest := Split(t[n..]);
      WordsCons(t[..n], rest);
      [t[..n]] + rest
  }

  lemma WordsCons(w: string, ws: seq<string>)
    requires w != [] && NoSpace(w)
    requires forall k :: 0 <= k < |ws| ==> ws[k] != [] && NoSpace(ws[k])
    ensures forall k :: 0 <= k < |[w] + ws| ==> ([w] + ws)[k] != [] && NoSpace(([w] + ws)[k])
  {
  }

  /** Splitting a word followed by a space and more text yields that word first. */
  lemma SplitFirst(w: string, rest: string)
    requires w != [] && NoSpace(w)
    ensures Split(w + " " + rest) == [w] + Split(" " + rest)
  {
    var s := w + " " + rest;
    assert s == w + (" " + rest);
    assert s[0] == w[0];
    assert LStrip(s, IsSpace) == s;
    WordEndOf(w, " " + rest);
    assert s[..|w|] == w;
    assert s[|w|..] == " " + rest;
    assert Split(s) == [s[..WordEnd(s)]] + Split(s[WordEnd(s)..]);
  }

  lemma {:induction false} WordEndOf(w: string, rest: string)
    requires NoSpace(w) && (rest == [] || IsSpace(rest[0]))
    ensures WordEnd(w + rest) == |w|
    decreases |w|
  {
    if w != [] {
      assert (w + rest)[1..] == w[1..] + rest;
      WordEndOf(w[1..], rest);
    } else {
      assert w + rest == rest;
    }
  }

  /** Splitting a string without whitespace yields that string alone. */
  lemma SplitWord(w: string)
    requires w != [] && NoSpace(w)
    ensures Split(w) == [w]
  {
    assert LStrip(w, IsSpace) == w;
    WordEndOf(w, []);
    assert w + [] == w;
    assert w[|w|..] == [];
    assert LStrip([], IsSpace) == [];
  }

  /** Leading whitespace does not change the split. */
  lemma SplitSpace(rest: string)
    ensures Split(" " + rest) == Split(rest)
  {
    assert (" " + rest)[1..] == rest;
  }

  /** Whitespace in front of a text does not change its split. */
  lemma SplitBlankPrefix(p: string, s: string)
    requires forall i :: 0 <= i < |p| ==> IsSpace(p[i])
    ensures Split(p + s) == Split(s)
  {
    LStripPrefix(p, s);
    SplitStripped(p + s);
    SplitStripped(s);
  }

  /** The split reads only the text after its leading whitespace. */
  lemma SplitStripped(s: string)
    ensures Split(s) == Split(LStrip(s, IsSpace))
  {
    var t := LStrip(s, IsSpace);
    LStripDrops([], t, IsSpace);
    assert [] + t == t;
  }

  lemma LStripPrefix(p: string, s: string)
    requires forall i :: 0 <= i < |p| ==> IsSpace(p[i])
    ensures LStrip(p + s, IsSpace) == LStrip(s, IsSpace)
  {
    var t := LStrip(s, IsSpace);
    var q := s[..|s| - |t|];
    assert forall i :: 0 <= i < |q| ==> IsSpace(q[i]);
    BlankJoin(p, q);
    assert s == q + t;
    Assoc(p, q, t);
    LStripDrops(p + q, t, IsSpace);
  }

  lemma Assoc(a: string, b: string, c: string)
    ensures (a + b) + c == a + (b + c)
  {
  }

  lemma BlankJoin(p: string, q: string)
    requires forall i :: 0 <= i < |p| ==> IsSpace(p[i])
    requires forall i :: 0 <= i < |q| ==> IsSpace(q[i])
    ensures forall i :: 0 <= i < |p + q| ==> IsSpace((p + q)[i])
  {
  }

  /** `str.split()` of whitespace alone is empty. */
  lemma SplitBlank(s: string)
    requires forall i :: 0 <= i < |s| ==> IsSpace(s[i])
    ensures Split(s) == []
  {
    SplitBlankPrefix(s, []);
    assert s + [] == s;
  }

  lemma {:induction false} WordEndPrefix(x: string, y: string)
    requires WordEnd(x) < |x|
    ensures WordEnd(x + y) == WordEnd(x)
    decreases |x|
  {
    if !IsSpace(x[0]) {
      assert (x + y)[1..] == x[1..] + y;
      WordEndPrefix(x[1..], y);
    }
  }

  /** A whitespace character cuts the split in two: the words of `a + [c] + b` are the words
      of `a` followed by the words of `b`. With SplitWord and SplitBlank this fixes the split
      of every text: its words are its maximal runs of non-whitespace, in order. */
  lemma {:induction false} SplitAt(a: string, c: char, b: string)
    requires IsSpace(c)
    ensures Split(a + [c] + b) == Split(a) + Split(b)
    decreases |a|
  {
    var t := SplitAtStripped(a, c, b);
    if t == [] {
      SplitAtBlank(c, b);
    } else if WordEnd(t) < |t| {
      SplitAt(t[WordEnd(t)..], c, b);
      SplitAtInner(t, c, b);
    } else {
      SplitAtLast(t, c, b);
    }
  }

  /** SplitAt reduced to the text after the leading whitespace of `a`. */
  lemma SplitAtStripped(a: string, c: char, b: string) returns (t: string)
    ensures t == LStrip(a, IsSpace) && |t| <= |a|
    ensures Split(a + [c] + b) == Split(t + [c] + b) && Split(a) == Split(t)
  {
    t := LStrip(a, IsSpace);
    var p := a[..|a| - |t|];
    assert a == p + t;
    Regroup(p, t, [c], b);
    SplitBlankPrefix(p, t + [c] + b);
    SplitBlankPrefix(p, t);
  }

  lemma SplitAtBlank(c: char, b: string)
    requires IsSpace(c)
    ensures Split([] + [c] + b) == Split([]) + Split(b)
  {
    assert [] + [c] + b == [c] + b;
    SplitBlankPrefix([c], b);
  }

  /** The step of SplitAt when the text's first word ends before the cut. */
  lemma SplitAtInner(t: string, c: char, b: string)
    requires t != [] && !IsSpace(t[0]) && WordEnd(t) < |t|
    requires Split(t[WordEnd(t)..] + [c] + b) == Split(t[WordEnd(t)..]) + Split(b)
    ensures Split(t + [c] + b) == Split(t) + Split(b)
  {
    var n := WordEnd(t);
    var y := [c] + b;
    Assoc(t, [c], b);
    Assoc(t[n..], [c], b);
    var u := t + y;
    assert u[0] == t[0];
    WordEndPrefix(t, y);
    SliceAt(t, y, n);
    SplitHead(u);
    SplitHead(t);
    var w, r, sb := t[..n], Split(t[n..]), Split(b);
    assert Split(u) == [w] + (r + sb);
    AssocSeq([w], r, sb);
  }

  lemma AssocSeq<T>(a: seq<T>, b: seq<T>, c: seq<T>)
    ensures (a + b) + c == a + (b + c)
  {
  }

  /** The step of SplitAt when the text is one word. */
  lemma SplitAtLast(t: string, c: char, b: string)
    requires t != [] && !IsSpace(t[0]) && WordEnd(t) == |t| && IsSpace(c)
    ensures Split(t + [c] + b) == Split(t) + Split(b)
  {
    assert t[..WordEnd(t)] == t;
    SplitWord(t);
    Assoc(t, [c], b);
    SplitWordThen(t, [c] + b);
    SplitBlankPrefix([c], b);
  }

  /** A word followed by whitespace: that word, then the split of the rest. */
  lemma SplitWordThen(t: string, y: string)
    requires t != [] && NoSpace(t) && y != [] && IsSpace(y[0])
    ensures Split(t + y) == [t] + Split(y)
  {
    var u := t + y;
    assert u[0] == t[0];
    SplitHead(u);
    WordEndOf(t, y);
    SliceAt(t, y, |t|);
    assert t[..|t|] == t;
  }

  /** The split of a text that starts with a word: that word, then the split of the rest. */
  lemma SplitHead(u: string)
    requires u != [] && !IsSpace(u[0])
    ensures Split(u) == [u[..WordEnd(u)]] + Split(u[WordEnd(u)..])
  {
    LStripDrops([], u, IsSpace);
    assert [] + u == u;
  }

  lemma SliceAt(x: string, y: string, n: nat)
    requires n <= |x|
    ensures (x + y)[..n] == x[..n] && (x + y)[n..] == x[n..] + y
  {
  }

  lemma Regroup(a: string, b: string, c: string, d: string)
    ensures (a + b) + c + d == a + (b + c + d)
  {
  }

  function DigitChar(d: nat): (c: char)
    requires d < 10
    ensures IsDigit(c)
  {
    ('0' as int + d) as char
  }

  /** `str(n)` for a natural number: its decimal digits, most significant first. */
  function NatToString(n: nat): (s: string)
    ensures |s| > 0 && forall i :: 0 <= i < |s| ==> IsDigit(s[i])
  {
    if n < 10 then [DigitChar(n)] else NatToString(n / 10) + [DigitChar(n % 10)]
  }

  /** `str(n)` for an integer. */
  function IntToString(n: int): string {
    if n < 0 then "-" + NatToString(-n) else NatToString(n)
  }

  /** A run of digits in which every '_' stands between two digits, the form `int()` accepts. */
  predicate DigitRun(w: string) {
    |w| > 0 &&
    forall i :: 0 <= i < |w| ==>
      IsDigit(w[i]) || (w[i] == '_' && 0 < i < |w| - 1 && IsDigit(w[i - 1]) && IsDigit(w[i + 1]))
  }

  /** The number a digit run denotes, underscores ignored. */
  function DigitsValue(w: string): nat {
    if w == [] then 0
    else
      var last := w[|w| - 1];
      if IsDigit(last) then DigitsValue(w[..|w| - 1]) * 10 + (last as int - '0' as int)
      else DigitsValue(w[..|w| - 1])
  }

  /** `int(w)` for a word `w`: an optional sign followed by a digit run; None is the ValueError. */
  function ParseInt(w: string): Option<int> {
    if |w| > 0 && (w[0] == '+' || w[0] == '-') then
      if DigitRun(w[1..]) then
        Some(if w[0] == '-' then -(DigitsValue(w[1..]) as int) else DigitsValue(w[1..]) as int)
      else None
    else if DigitRun(w) then Some(DigitsValue(w) as int)
    else None
  }

  lemma {:induction false} DigitsValueOfNat(n: nat)
    ensures DigitsValue(NatToString(n)) == n
  {
    if n >= 10 {
      DigitsValueOfNat(n / 10);
      var s := NatToString(n / 10) + [DigitChar(n % 10)];
      assert s[..|s| - 1] == NatToString(n / 10);
    }
  }

  /** `int(str(n)) == n`. */
  lemma ParseIntRoundTrip(n: int)
    ensures ParseInt(IntToString(n)) == Some(n)
    ensures IntToString(n) != [] && NoSpace(IntToString(n))
  {
    var m: nat := if n < 0 then -n else n;
    var d := NatToString(m);
    DigitsValueOfNat(m);
    assert DigitRun(d);
    if n < 0 {
      var w := "-" + d;
      assert w[0] == '-' && w[1..] == d;
      assert forall i :: 0 <= i < |w| ==> w[i] == '-' || IsDigit(w[i]);
    } else {
      assert IsDigit(d[0]);
    }
  }

  /** `s.replace(c, sub)` for a one-character pattern. */
  function Replace(s: string, c: char, sub: string): (r: string)
    ensures c !in sub ==> c !in r
    ensures forall x :: x in r ==> x in sub || (x in s && x != c)
    ensures c !in s ==> r == s
  {
    if s == [] then []
    else (if s[0] == c then sub else [s[0]]) + Replace(s[1..], c, sub)
  }

  /** `replace` works character by character: on a concatenation it is the concatenation of
      the replacements, and one character is replaced by `sub` exactly when it is `c`. */
  lemma {:induction false} ReplaceAppend(a: string, b: string, c: char, sub: string)
    ensures Replace(a + b, c, sub) == Replace(a, c, sub) + Replace(b, c, sub)
    decreases |a|
  {
    if a == [] {
      assert a + b == b;
    } else {
      assert (a + b)[0] == a[0] && (a + b)[1..] == a[1..] + b;
      ReplaceAppend(a[1..], b, c, sub);
    }
  }

  lemma ReplaceChar(x: char, c: char, sub: string)
    ensures Replace([x], c, sub) == if x == c then sub else [x]
  {
    assert [x][1..] == [];
  }

  /** `s.split(c)[0]`: everything before the first occurrence of `c`. */
  function BeforeFirst(s: string, c: char): (r: string)
    ensures StartsWith(s, r) && c !in r
    ensures |r| == |s| || s[|r|] == c
  {
    if s == [] || s[0] == c then [] else [s[0]] + BeforeFirst(s[1..], c)
  }
}
