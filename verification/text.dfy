/** The string operations of the Python runtime that the checkers are built from:
    substring membership (`sub in s`), `str.find`, `str.split`, the negative slice
    `s[-n:]`, `str.strip`, `str.startswith` and `str(n)` for a natural number. */
module Text {
  import opened Wrappers

  /** `sub` occurs in `s` starting at position `i`. */
  predicate OccursAt(s: string, sub: string, i: int) {
    0 <= i && i + |sub| <= |s| && s[i..i + |sub|] == sub
  }

  /** `sub in s`: some window of `s` is exactly `sub`. */
  predicate Contains(s: string, sub: string) {
    exists i :: 0 <= i <= |s| && OccursAt(s, sub, i)
  }

  /** A window of a window is a window of the whole text. */
  lemma SliceOfSlice(t: string, lo: nat, hi: nat, a: nat, b: nat)
    requires lo <= hi <= |t| && a <= b <= hi - lo
    ensures t[lo..hi][a..b] == t[lo + a..lo + b]
  {
    assert forall k :: 0 <= k < b - a ==> t[lo..hi][a..b][k] == t[lo + a + k];
  }

  /** Dropping the first character moves every later occurrence one place to the left. */
  lemma OccursAfterFirst(s: string, sub: string)
    requires |s| > 0
    ensures forall j :: 1 <= j ==> (OccursAt(s, sub, j) <==> OccursAt(s[1..], sub, j - 1))
  {
    forall j | 1 <= j
      ensures OccursAt(s, sub, j) <==> OccursAt(s[1..], sub, j - 1)
    {
      if j + |sub| <= |s| {
        SliceOfSlice(s, 1, |s|, j - 1, j - 1 + |sub|);
      }
    }
  }

  /** `s.find(sub)`, with None standing for -1. */
  function FirstIndex(s: string, sub: string): (r: Option<nat>)
    ensures r.Some? ==> r.value + |sub| <= |s|
    decreases |s|
  {
    if |s| < |sub| then None
    else if s[..|sub|] == sub then Some(0)
    else
      match FirstIndex(s[1..], sub)
      case None => None
      case Some(k) => Some(k + 1)
  }

  /** `s.find(sub)` is the position of the first occurrence, and is -1 exactly when `sub`
      does not occur. */
  lemma {:induction false} FirstIndexSpec(s: string, sub: string)
    ensures FirstIndex(s, sub).Some? ==> OccursAt(s, sub, FirstIndex(s, sub).value)
    ensures FirstIndex(s, sub).Some? ==> forall j :: 0 <= j < FirstIndex(s, sub).value ==> !OccursAt(s, sub, j)
    ensures FirstIndex(s, sub).None? <==> !Contains(s, sub)
    decreases |s|
  {
    if |s| < |sub| {
    } else if s[..|sub|] == sub {
      assert OccursAt(s, sub, 0);
    } else {
      var t := s[1..];
      FirstIndexSpec(t, sub);
      OccursAfterFirst(s, sub);
      assert !OccursAt(s, sub, 0);
      match FirstIndex(t, sub)
      case None =>
        forall j | 0 <= j <= |s| ensures !OccursAt(s, sub, j) {
          if j >= 1 {
            assert !OccursAt(t, sub, j - 1);
          }
        }
      case Some(k) =>
        assert FirstIndex(s, sub) == Some(k + 1);
        assert OccursAt(s, sub, k + 1);
        forall j | 1 <= j < k + 1 ensures !OccursAt(s, sub, j) {
          assert !OccursAt(t, sub, j - 1);
        }
    }
  }

  /** `s.split(sep)` for a non-empty separator (Python raises ValueError on an empty one). */
  function Split(s: string, sep: string): (parts: seq<string>)
    requires sep != []
    ensures |parts| >= 1
    decreases |s|
  {
    match FirstIndex(s, sep)
    case None => [s]
    case Some(i) => [s[..i]] + Split(s[i + |sep|..], sep)
  }

  /** The first part of `s.split(sep)` is the text before the first occurrence of `sep`
      (so it never contains `sep`), or all of `s` when `sep` does not occur. */
  lemma SplitHead(s: string, sep: string)
    requires sep != []
    ensures |Split(s, sep)[0]| <= |s| && Split(s, sep)[0] == s[..|Split(s, sep)[0]|]
    ensures !Contains(Split(s, sep)[0], sep)
    ensures Contains(s, sep) <==> |Split(s, sep)| > 1
    ensures FirstIndex(s, sep).Some? ==> Split(s, sep)[0] == s[..FirstIndex(s, sep).value]
  {
    FirstIndexSpec(s, sep);
    match FirstIndex(s, sep)
    case None =>
    case Some(i) =>
      forall j | OccursAt(s[..i], sep, j)
        ensures false
      {
        SliceOfSlice(s, 0, i, j, j + |sep|);
        assert OccursAt(s, sep, j);
      }
  }

  /** `sep.join(parts)` */
  function Join(parts: seq<string>, sep: string): (s: string)
    decreases |parts|
  {
    if |parts| == 0 then ""
    else if |parts| == 1 then parts[0]
    else parts[0] + sep + Join(parts[1..], sep)
  }

  /** Joining a head in front of a non-empty list puts the separator between them. */
  lemma JoinCons(head: string, parts: seq<string>, sep: string)
    requires |parts| >= 1
    ensures Join([head] + parts, sep) == head + sep + Join(parts, sep)
  {
    assert ([head] + parts)[1..] == parts;
  }

  /** Splitting loses nothing: joining the parts with the separator gives back the text. */
  lemma {:induction false} JoinSplit(s: string, sep: string)
    requires sep != []
    ensures Join(Split(s, sep), sep) == s
    decreases |s|
  {
    match FirstIndex(s, sep)
    case None =>
    case Some(i) =>
      assert OccursAt(s, sep, i) by {
        FirstIndexSpec(s, sep);
      }
      var rest := s[i + |sep|..];
      var parts := Split(rest, sep);
      JoinSplit(rest, sep);
      JoinCons(s[..i], parts, sep);
      SplitAround(s, i, i + |sep|);
  }

  /** A text is its part before `i`, its window from `i` to `j` and its part after `j`. */
  lemma SplitAround(s: string, i: nat, j: nat)
    requires i <= j <= |s|
    ensures s == s[..i] + s[i..j] + s[j..]
  {
  }

  /** `s.split('\n')`: the lines of a text. */
  function Lines(s: string): (lines: seq<string>)
    ensures |lines| >= 1
  {
    Split(s, "\n")
  }

  /** `s[-n:]`: the last `n` characters, all of `s` when it is shorter, and (since -0 is 0)
      all of `s` when `n` is 0. */
  function TakeLast(s: string, n: nat): (r: string)
    ensures |r| <= |s| && r == s[|s| - |r|..]
    ensures n > 0 ==> |r| == if |s| < n then |s| else n
    ensures n == 0 ==> r == s
  {
    if n == 0 || |s| <= n then s else s[|s| - n..]
  }

  /** `c.isspace()`: the characters that `str.strip()` removes. */
  predicate IsSpace(c: char) {
    ('\t' <= c <= '\r') || ('\U{1C}' <= c <= ' ') || c == '\U{85}' || c == '\U{A0}'
    || c == '\U{1680}' || ('\U{2000}' <= c <= '\U{200A}') || c == '\U{2028}' || c == '\U{2029}'
    || c == '\U{202F}' || c == '\U{205F}' || c == '\U{3000}'
  }

  /** `s.lstrip()` */
  function LStrip(s: string): (r: string)
    ensures |r| <= |s| && r == s[|s| - |r|..]
    ensures |r| > 0 ==> !IsSpace(r[0])
    ensures forall k :: 0 <= k < |s| - |r| ==> IsSpace(s[k])
  {
    if |s| > 0 && IsSpace(s[0]) then LStrip(s[1..]) else s
  }

  /** `s.rstrip()` */
  function RStrip(s: string): (r: string)
    ensures |r| <= |s| && r == s[..|r|]
    ensures |r| > 0 ==> !IsSpace(r[|r| - 1])
    ensures forall k :: |r| <= k < |s| ==> IsSpace(s[k])
  {
    if |s| > 0 && IsSpace(s[|s| - 1]) then RStrip(s[..|s| - 1]) else s
  }

  /** `s.strip()` */
  function Strip(s: string): (r: string) {
    RStrip(LStrip(s))
  }

  /** `s.startswith(prefix)` */
  predicate StartsWith(s: string, prefix: string) {
    |prefix| <= |s| && s[..|prefix|] == prefix
  }

  /** `str(n)` for a natural number: its decimal digits, most significant first. */
  function NatToString(n: nat): (r: string)
    ensures |r| >= 1
    ensures forall k :: 0 <= k < |r| ==> '0' <= r[k] <= '9'
    decreases n
  {
    if n < 10 then ["0123456789"[n]] else NatToString(n / 10) + ["0123456789"[n % 10]]
  }

  /** `int(s)` for a string of decimal digits: the number they spell, most significant
      digit first. */
  function DigitsValue(s: string): (v: int)
    decreases |s|
  {
    if s == [] then 0 else DigitsValue(s[..|s| - 1]) * 10 + (s[|s| - 1] as int - '0' as int)
  }

  /** The digit character of a value below 10 stands for that value. */
  lemma DigitChar(d: nat)
    requires d < 10
    ensures "0123456789"[d] as int - '0' as int == d
  {
  }

  /** Reading back the digits `str(n)` writes gives `n`, and they carry no leading zero. */
  lemma {:induction false} NatToStringValue(n: nat)
    ensures DigitsValue(NatToString(n)) == n
    ensures |NatToString(n)| > 1 ==> NatToString(n)[0] != '0'
    decreases n
  {
    var r := NatToString(n);
    if n < 10 {
      DigitChar(n);
      assert r[..0] == [];
    } else {
      NatToStringValue(n / 10);
      DigitChar(n % 10);
      assert r[..|r| - 1] == NatToString(n / 10);
      if |NatToString(n / 10)| == 1 {
        assert n / 10 != 0;
        assert NatToString(n / 10)[0] != '0';
      }
    }
  }

  /** Every character of a substring occurs in the text: a text that lacks one character
      of `sub` cannot contain `sub`. */
  lemma ContainsChar(s: string, sub: string, k: nat)
    requires k < |sub|
    ensures Contains(s, sub) ==> sub[k] in s
  {
    if Contains(s, sub) {
      var i :| 0 <= i <= |s| && OccursAt(s, sub, i);
      assert s[i + k] == s[i..i + |sub|][k];
    }
  }

  /** A text containing `p + q` contains `p` and contains `q`. */
  lemma ContainsParts(s: string, p: string, q: string)
    requires Contains(s, p + q)
    ensures Contains(s, p) && Contains(s, q)
  {
    var i :| 0 <= i <= |s| && OccursAt(s, p + q, i);
    assert s[i..i + |p|] == (p + q)[..|p|] == p;
    assert s[i + |p|..i + |p| + |q|] == (p + q)[|p|..] == q;
    assert OccursAt(s, p, i) && OccursAt(s, q, i + |p|);
  }

  /** A text that contains a window of `t` contains what that window contains. */
  lemma ContainsInSlice(t: string, lo: nat, hi: nat, sub: string)
    requires lo <= hi <= |t| && Contains(t[lo..hi], sub)
    ensures Contains(t, sub)
  {
    var i :| 0 <= i <= |t[lo..hi]| && OccursAt(t[lo..hi], sub, i);
    SliceOfSlice(t, lo, hi, i, i + |sub|);
    assert OccursAt(t, sub, lo + i);
  }

  /** An occurrence in `a + [c] + b` lies wholly in `a`, wholly in `b`, or covers the `c`. */
  lemma ContainsAroundSplits(a: string, c: char, b: string, sub: string)
    requires Contains(a + [c] + b, sub)
    ensures Contains(a, sub) || Contains(b, sub) || c in sub
  {
    var s := a + [c] + b;
    var i :| 0 <= i <= |s| && OccursAt(s, sub, i);
    if i + |sub| <= |a| {
      assert a[i..i + |sub|] == s[i..i + |sub|];
      assert OccursAt(a, sub, i);
    } else if i > |a| {
      assert b[i - |a| - 1..i - |a| - 1 + |sub|] == s[i..i + |sub|];
      assert OccursAt(b, sub, i - |a| - 1);
    } else {
      assert sub[|a| - i] == s[i..i + |sub|][|a| - i] == c;
    }
  }

  /** An occurrence of a string without `c` lies wholly on one side of a `c`. */
  lemma ContainsAround(a: string, c: char, b: string, sub: string)
    requires c !in sub
    ensures Contains(a + [c] + b, sub) <==> Contains(a, sub) || Contains(b, sub)
  {
    var s := a + [c] + b;
    if Contains(s, sub) {
      ContainsAroundSplits(a, c, b, sub);
    }
    if Contains(a, sub) {
      var i :| 0 <= i <= |a| && OccursAt(a, sub, i);
      assert s[i..i + |sub|] == a[i..i + |sub|];
      assert OccursAt(s, sub, i);
    }
    if Contains(b, sub) {
      var i :| 0 <= i <= |b| && OccursAt(b, sub, i);
      assert s[|a| + 1 + i..|a| + 1 + i + |sub|] == b[i..i + |sub|];
      assert OccursAt(s, sub, |a| + 1 + i);
    }
  }

  /** For a needle without a line break, a text contains it exactly when one of its
      lines does. */
  lemma {:induction false} ContainsOnSomeLine(s: string, sub: string)
    requires '\n' !in sub
    ensures Contains(s, sub) <==> exists k :: 0 <= k < |Lines(s)| && Contains(Lines(s)[k], sub)
    decreases |s|
  {
    match FirstIndex(s, "\n")
    case None =>
      assert Lines(s) == [s];
      if Contains(s, sub) {
        assert Contains(Lines(s)[0], sub);
      }
    case Some(i) =>
      assert OccursAt(s, "\n", i) by {
        FirstIndexSpec(s, "\n");
      }
      var rest := s[i + 1..];
      ContainsOnSomeLine(rest, sub);
      assert Lines(s) == [s[..i]] + Lines(rest);
      SplitAround(s, i, i + 1);
      assert s == s[..i] + ['\n'] + rest;
      ContainsAround(s[..i], '\n', rest, sub);
      if Contains(s[..i], sub) {
        assert Contains(Lines(s)[0], sub);
      }
      if Contains(rest, sub) {
        var k :| 0 <= k < |Lines(rest)| && Contains(Lines(rest)[k], sub);
        assert Lines(s)[k + 1] == Lines(rest)[k];
      }
      if exists k :: 0 <= k < |Lines(s)| && Contains(Lines(s)[k], sub) {
        var k :| 0 <= k < |Lines(s)| && Contains(Lines(s)[k], sub);
        if k > 0 {
          assert Lines(rest)[k - 1] == Lines(s)[k];
        }
      }
  }

  /** `rstrip` keeps a first character that is not whitespace. */
  lemma {:induction false} RStripKeepsFirst(s: string)
    requires |s| > 0 && !IsSpace(s[0])
    ensures |RStrip(s)| > 0 && RStrip(s)[0] == s[0]
    decreases |s|
  {
    if IsSpace(s[|s| - 1]) {
      RStripKeepsFirst(s[..|s| - 1]);
    }
  }

  /** Whether `line.strip()` starts with `#` depends only on the leading whitespace being
      removed: it is the first non-whitespace character of the line that decides. */
  lemma StrippedStartsWith(line: string)
    ensures StartsWith(Strip(line), "#") <==> StartsWith(LStrip(line), "#")
  {
    var t := LStrip(line);
    var u := RStrip(t);
    StartsWithChar(t, '#');
    StartsWithChar(u, '#');
    if |t| > 0 {
      RStripKeepsFirst(t);
    }
  }

  /** Starting with a one-character prefix is a test of the first character. */
  lemma StartsWithChar(s: string, c: char)
    ensures StartsWith(s, [c]) <==> |s| > 0 && s[0] == c
  {
    if |s| > 0 && s[0] == c {
      assert s[..1] == [c];
    }
  }
}
