/**
 * The JavaScript string operations the edge functions rely on (`startsWith`, `includes`,
 * `replace` with a string or a global regular expression, `split`, `join`), written out
 * over `seq<char>`.
 */
module JsStrings {

  predicate StartsWith(s: string, prefix: string) {
    |prefix| <= |s| && s[..|prefix|] == prefix
  }

  /** `s.includes(pattern)`. */
  predicate Contains(s: string, pattern: string)
    decreases |s|
  {
    StartsWith(s, pattern) || (s != [] && Contains(s[1..], pattern))
  }

  /** Number of occurrences of `c` in `s`. */
  function Count(s: string, c: char): (n: nat)
    ensures n <= |s|
    ensures n == 0 <==> c !in s
  {
    if s == [] then 0 else (if s[0] == c then 1 else 0) + Count(s[1..], c)
  }

  /** `s.replace(pattern, replacement)` with a string pattern: only the first occurrence is replaced. */
  function ReplaceFirst(s: string, pattern: string, replacement: string): (r: string)
    ensures StartsWith(s, pattern) ==> r == replacement + s[|pattern|..]
    ensures !Contains(s, pattern) ==> r == s
    decreases |s|
  {
    if StartsWith(s, pattern) then replacement + s[|pattern|..]
    else if s == [] then []
    else [s[0]] + ReplaceFirst(s[1..], pattern, replacement)
  }

  /** `s.replace(/from/g, to)` for a one-character pattern. */
  function ReplaceChar(s: string, from: char, to: char): (r: string)
    ensures |r| == |s|
    ensures forall i :: 0 <= i < |s| ==> r[i] == (if s[i] == from then to else s[i])
    ensures from != to ==> from !in r
    ensures from !in s ==> r == s
    ensures forall x :: x != from && x != to ==> Count(r, x) == Count(s, x)
  {
    if s == [] then []
    else
      var rest := ReplaceChar(s[1..], from, to);
      var r := [if s[0] == from then to else s[0]] + rest;
      assert r[1..] == rest;
      assert from !in s ==> r == [s[0]] + s[1..] == s;
      r
  }

  /** `s.replace(/c/g, "")`. */
  function DeleteChar(s: string, c: char): (r: string)
    ensures c !in r
    ensures c !in s ==> r == s
    ensures forall x :: x in r ==> x in s
    ensures |r| == |s| - Count(s, c)
    ensures forall x :: x != c ==> Count(r, x) == Count(s, x)
  {
    if s == [] then []
    else
      var rest := DeleteChar(s[1..], c);
      if s[0] == c then rest
      else
        assert ([s[0]] + rest)[1..] == rest;
        assert c !in s ==> [s[0]] + rest == [s[0]] + s[1..] == s;
        [s[0]] + rest
  }

  /**
   * `s.replace(/ab/g, to)` for a two-character pattern: matches are taken left to right
   * and do not overlap, each replaced by the one character `to`.
   */
  function ReplacePair(s: string, a: char, b: char, to: char): (r: string)
    ensures |r| <= |s|
    ensures forall x :: x in r ==> x in s || x == to
  {
    if |s| >= 2 && s[0] == a && s[1] == b then [to] + ReplacePair(s[2..], a, b, to)
    else if s == [] then []
    else [s[0]] + ReplacePair(s[1..], a, b, to)
  }

  /** `s.split(d)` for a one-character separator: `""` splits into `[""]`. */
  function Split(s: string, d: char): (r: seq<string>)
    ensures |r| == Count(s, d) + 1
    ensures forall k :: 0 <= k < |r| ==> d !in r[k]
  {
    if s == [] then [[]]
    else
      var rest := Split(s[1..], d);
      if s[0] == d then [[]] + rest
      else [[s[0]] + rest[0]] + rest[1..]
  }

  /** `lines.join(sep)`. */
  function JoinWith(lines: seq<string>, sep: string): string
  {
    if lines == [] then []
    else if |lines| == 1 then lines[0]
    else lines[0] + sep + JoinWith(lines[1..], sep)
  }

  /** `lines.join('')`. */
  function Concat(lines: seq<string>): string
  {
    if lines == [] then [] else lines[0] + Concat(lines[1..])
  }

  /** The characters the regular-expression class `\s` matches in JavaScript. */
  predicate IsWhitespace(c: char) {
    c == ' ' || c == '\t' || c == '\n' || c == '\r' || c == '\U{000B}' || c == '\U{000C}'
    || c == '\U{00A0}' || c == '\U{1680}' || ('\U{2000}' <= c <= '\U{200A}')
    || c == '\U{2028}' || c == '\U{2029}' || c == '\U{202F}' || c == '\U{205F}'
    || c == '\U{3000}' || c == '\U{FEFF}'
  }

  /** `s.replace(/\s/g, '')`. */
  function StripWhitespace(s: string): (r: string)
    ensures forall i :: 0 <= i < |r| ==> !IsWhitespace(r[i])
    ensures (forall i :: 0 <= i < |s| ==> !IsWhitespace(s[i])) ==> r == s
    ensures |r| <= |s|
    ensures r == [] <==> AllWhitespace(s)
  {
    if s == [] then []
    else
      var rest := StripWhitespace(s[1..]);
      assert AllWhitespace(s) <==> IsWhitespace(s[0]) && AllWhitespace(s[1..]) by {
        assert forall i :: 1 <= i < |s| ==> s[i] == s[1..][i - 1];
      }
      if IsWhitespace(s[0]) then rest
      else
        assert (forall i :: 0 <= i < |s| ==> !IsWhitespace(s[i])) ==> [s[0]] + rest == [s[0]] + s[1..] == s;
        [s[0]] + rest
  }

  predicate AllWhitespace(s: string) {
    forall i :: 0 <= i < |s| ==> IsWhitespace(s[i])
  }

  /** Decimal rendering of a count, as a template literal shows it. */
  function DecimalString(n: nat): (r: string)
    ensures r != []
    ensures forall i :: 0 <= i < |r| ==> '0' <= r[i] <= '9'
  {
    var digit := ['0' + (n % 10) as char];
    if n < 10 then digit else DecimalString(n / 10) + digit
  }

  // ---------------------------------------------------------------------------
  // Lemmas
  // ---------------------------------------------------------------------------

  /** A non-empty pattern can only occur where its first character does. */
  lemma {:induction false} ContainsNeedsFirstChar(s: string, pattern: string)
    requires pattern != [] && pattern[0] !in s
    ensures !Contains(s, pattern)
  {
    if s != [] {
      assert s[0] != pattern[0];
      ContainsNeedsFirstChar(s[1..], pattern);
    }
  }

  /** Whitespace is deleted piecewise: stripping a concatenation strips each part. */
  lemma {:induction false} StripWhitespaceAppend(a: string, b: string)
    ensures StripWhitespace(a + b) == StripWhitespace(a) + StripWhitespace(b)
  {
    if a == [] {
      assert a + b == b;
    } else {
      assert (a + b)[1..] == a[1..] + b;
      StripWhitespaceAppend(a[1..], b);
    }
  }

  /** Every character that is not whitespace survives, as often as it occurs. */
  lemma {:induction false} StripWhitespaceKeeps(s: string, c: char)
    requires !IsWhitespace(c)
    ensures Count(StripWhitespace(s), c) == Count(s, c)
  {
    if s != [] {
      StripWhitespaceKeeps(s[1..], c);
      var rest := StripWhitespace(s[1..]);
      if !IsWhitespace(s[0]) {
        assert ([s[0]] + rest)[1..] == rest;
      }
    }
  }

  /** Joining with a final empty line ends the text with the separator. */
  lemma {:induction false} JoinWithFinalEmpty(lines: seq<string>, sep: string)
    requires lines != []
    ensures JoinWith(lines + [[]], sep) == JoinWith(lines, sep) + sep
  {
    if |lines| == 1 {
      assert (lines + [[]])[1..] == [[]];
    } else {
      assert (lines + [[]])[1..] == lines[1..] + [[]];
      JoinWithFinalEmpty(lines[1..], sep);
    }
  }

  lemma {:induction false} ConcatAppend(a: seq<string>, b: seq<string>)
    ensures Concat(a + b) == Concat(a) + Concat(b)
  {
    if a == [] {
      assert a + b == b;
    } else {
      assert (a + b)[1..] == a[1..] + b;
      ConcatAppend(a[1..], b);
    }
  }

  /** The joined lines are all whitespace exactly when every line is. */
  lemma {:induction false} ConcatAllWhitespace(lines: seq<string>)
    ensures AllWhitespace(Concat(lines)) <==> forall line :: line in lines ==> AllWhitespace(line)
  {
    if lines != [] {
      ConcatAllWhitespace(lines[1..]);
      var c := Concat(lines);
      var rest := Concat(lines[1..]);
      assert c == lines[0] + rest;
      assert AllWhitespace(c) <==> AllWhitespace(lines[0]) && AllWhitespace(rest) by {
        if AllWhitespace(lines[0]) && AllWhitespace(rest) {
          forall i | 0 <= i < |c| ensures IsWhitespace(c[i]) {
            if i >= |lines[0]| {
              assert c[i] == rest[i - |lines[0]|];
            }
          }
        }
        if AllWhitespace(c) {
          forall i | 0 <= i < |rest| ensures IsWhitespace(rest[i]) {
            assert rest[i] == c[i + |lines[0]|];
          }
          forall i | 0 <= i < |lines[0]| ensures IsWhitespace(lines[0][i]) {
            assert lines[0][i] == c[i];
          }
        }
      }
      assert forall line :: line in lines <==> line == lines[0] || line in lines[1..];
    }
  }

  lemma {:induction false} CountAppend(a: string, b: string, c: char)
    ensures Count(a + b, c) == Count(a, c) + Count(b, c)
  {
    if a != [] {
      assert (a + b)[1..] == a[1..] + b;
      CountAppend(a[1..], b, c);
    } else {
      assert a + b == b;
    }
  }

  lemma {:induction false} ReplaceCharAppend(a: string, b: string, from: char, to: char)
    ensures ReplaceChar(a + b, from, to) == ReplaceChar(a, from, to) + ReplaceChar(b, from, to)
  {
    var l, r := ReplaceChar(a + b, from, to), ReplaceChar(a, from, to) + ReplaceChar(b, from, to);
    assert |l| == |r|;
    forall i | 0 <= i < |l| ensures l[i] == r[i] {
      if i < |a| { assert (a + b)[i] == a[i]; } else { assert (a + b)[i] == b[i - |a|]; }
    }
  }

  lemma {:induction false} DeleteCharAppend(a: string, b: string, c: char)
    ensures DeleteChar(a + b, c) == DeleteChar(a, c) + DeleteChar(b, c)
  {
    if a == [] {
      assert a + b == b;
    } else {
      assert (a + b)[1..] == a[1..] + b;
      DeleteCharAppend(a[1..], b, c);
    }
  }

  /** Splitting text that starts with a separator-free segment yields that segment first. */
  lemma {:induction false} SplitAfterSegment(a: string, rest: string, d: char)
    requires d !in a
    ensures Split(a + [d] + rest, d) == [a] + Split(rest, d)
  {
    if a == [] {
      assert a + [d] + rest == [d] + rest;
      assert ([d] + rest)[1..] == rest;
    } else {
      assert (a + [d] + rest)[1..] == a[1..] + [d] + rest;
      SplitAfterSegment(a[1..], rest, d);
      assert [a[0]] + a[1..] == a;
    }
  }

  lemma {:induction false} SplitSingleSegment(a: string, d: char)
    requires d !in a
    ensures Split(a, d) == [a]
  {
    if a != [] {
      SplitSingleSegment(a[1..], d);
      assert [a[0]] + a[1..] == a;
    }
  }

  /** `lines.join(d).split(d)` gives back `lines` when no line holds the separator. */
  lemma {:induction false} SplitJoin(lines: seq<string>, d: char)
    requires lines != []
    requires forall k :: 0 <= k < |lines| ==> d !in lines[k]
    ensures Split(JoinWith(lines, [d]), d) == lines
  {
    if |lines| == 1 {
      SplitSingleSegment(lines[0], d);
    } else {
      SplitJoin(lines[1..], d);
      SplitAfterSegment(lines[0], JoinWith(lines[1..], [d]), d);
      assert [lines[0]] + lines[1..] == lines;
    }
  }

  /** A two-character pattern cannot match where one of its characters never occurs. */
  lemma {:induction false} ReplacePairAbsent(s: string, a: char, b: char, to: char)
    requires a !in s || b !in s
    ensures ReplacePair(s, a, b, to) == s
  {
    if s != [] {
      ReplacePairAbsent(s[1..], a, b, to);
      assert [s[0]] + s[1..] == s;
    }
  }

  /** Text free of the pattern's first character passes through unchanged. */
  lemma {:induction false} ReplacePairSkip(x: string, rest: string, a: char, b: char, to: char)
    requires a !in x
    ensures ReplacePair(x + rest, a, b, to) == x + ReplacePair(rest, a, b, to)
  {
    if x == [] {
      assert x + rest == rest;
    } else {
      assert (x + rest)[1..] == x[1..] + rest;
      ReplacePairSkip(x[1..], rest, a, b, to);
    }
  }

  /** Replacing a two-character separator rewrites every separator of a join and nothing else. */
  lemma {:induction false} ReplacePairJoin(lines: seq<string>, a: char, b: char, to: char)
    requires forall k :: 0 <= k < |lines| ==> a !in lines[k]
    ensures ReplacePair(JoinWith(lines, [a, b]), a, b, to) == JoinWith(lines, [to])
  {
    if |lines| == 1 {
      ReplacePairAbsent(lines[0], a, b, to);
    } else if |lines| > 1 {
      var rest := JoinWith(lines[1..], [a, b]);
      assert lines[0] + [a, b] + rest == lines[0] + ([a, b] + rest);
      ReplacePairSkip(lines[0], [a, b] + rest, a, b, to);
      assert ([a, b] + rest)[2..] == rest;
      ReplacePairJoin(lines[1..], a, b, to);
      assert lines[0] + ([to] + JoinWith(lines[1..], [to])) == lines[0] + [to] + JoinWith(lines[1..], [to]);
    }
  }

  /** Replacing a one-character separator rewrites every separator of a join and nothing else. */
  lemma {:induction false} ReplaceCharJoin(lines: seq<string>, from: char, to: char)
    requires forall k :: 0 <= k < |lines| ==> from !in lines[k]
    ensures ReplaceChar(JoinWith(lines, [from]), from, to) == JoinWith(lines, [to])
  {
    if |lines| == 1 {
      assert from !in lines[0];
    } else if |lines| > 1 {
      var rest := JoinWith(lines[1..], [from]);
      assert JoinWith(lines, [from]) == (lines[0] + [from]) + rest;
      ReplaceCharAppend(lines[0] + [from], rest, from, to);
      ReplaceCharAppend(lines[0], [from], from, to);
      assert from !in lines[0];
      assert ReplaceChar([from], from, to) == [to];
      assert forall k :: 0 <= k < |lines[1..]| ==> lines[1..][k] == lines[k + 1];
      ReplaceCharJoin(lines[1..], from, to);
      assert JoinWith(lines, [to]) == lines[0] + [to] + JoinWith(lines[1..], [to]);
    }
  }

  /** A character in neither the lines nor the separator is not in their join. */
  lemma {:induction false} JoinWithExcludes(lines: seq<string>, sep: string, c: char)
    requires c !in sep
    requires forall k :: 0 <= k < |lines| ==> c !in lines[k]
    ensures c !in JoinWith(lines, sep)
  {
    if |lines| > 1 {
      JoinWithExcludes(lines[1..], sep, c);
    }
  }
}
