/** String primitives of ECMAScript that the pipeline relies on: the white-space
    class shared by `String.prototype.trim` and the regular-expression escape `\s`,
    `trim` itself, and `split` on a one-character separator with its inverse `join`. */
module Text {

  /** ECMAScript WhiteSpace and LineTerminator code points (ECMA-262, sections 12.2
      and 12.3): the set both `trim` and `\s` use. */
  predicate IsWs(c: char) {
    var n := c as int;
    n == 0x09 || n == 0x0A || n == 0x0B || n == 0x0C || n == 0x0D || n == 0x20
    || n == 0xA0 || n == 0x1680 || (0x2000 <= n <= 0x200A) || n == 0x2028
    || n == 0x2029 || n == 0x202F || n == 0x205F || n == 0x3000 || n == 0xFEFF
  }

  predicate AllWs(s: string) {
    forall i :: 0 <= i < |s| ==> IsWs(s[i])
  }

  predicate NoWs(s: string) {
    forall i :: 0 <= i < |s| ==> !IsWs(s[i])
  }

  /** Length of the white-space run that starts `s`. */
  function LeadingWs(s: string): (n: nat)
    ensures n <= |s| && AllWs(s[..n])
    ensures n < |s| ==> !IsWs(s[n])
  {
    if s != [] && IsWs(s[0]) then
      var m := LeadingWs(s[1..]);
      assert s[..1 + m] == [s[0]] + s[1..][..m];
      1 + m
    else 0
  }

  /** A white-space run followed by text that does not start with white space: the
      leading run is exactly that run. */
  lemma {:induction false} LeadingWsOfRun(w: string, b: string)
    requires AllWs(w)
    requires b == [] || !IsWs(b[0])
    ensures LeadingWs(w + b) == |w|
    decreases |w|
  {
    if w == [] {
      assert w + b == b;
    } else {
      assert (w + b)[0] == w[0];
      assert (w + b)[1..] == w[1..] + b;
      assert AllWs(w[1..]) by {
        forall i | 0 <= i < |w[1..]| ensures IsWs(w[1..][i]) { assert w[1..][i] == w[i + 1]; }
      }
      LeadingWsOfRun(w[1..], b);
    }
  }

  /** Length of the white-space run that ends `s`. */
  function TrailingWs(s: string): (n: nat)
    ensures n <= |s| && AllWs(s[|s| - n..])
    ensures n < |s| ==> !IsWs(s[|s| - n - 1])
  {
    if s != [] && IsWs(s[|s| - 1]) then
      var front := s[..|s| - 1];
      var m := TrailingWs(front);
      assert s[|s| - (1 + m)..] == front[|front| - m..] + [s[|s| - 1]];
      AllWsConcat(front[|front| - m..], [s[|s| - 1]]);
      1 + m
    else 0
  }

  /** `s.trim()`: the infix of `s` left once white space is stripped from both ends. */
  function Trim(s: string): (r: string)
    ensures var lo := LeadingWs(s);
            && lo + |r| <= |s| && r == s[lo..lo + |r|] && AllWs(s[lo + |r|..])
    ensures r == [] || (!IsWs(r[0]) && !IsWs(r[|r| - 1]))
    ensures r == [] <==> AllWs(s)
  {
    var lo := LeadingWs(s);
    if lo == |s| then
      assert s[..lo] == s;
      []
    else
      var n := TrailingWs(s);
      assert lo < |s| - n;
      assert !AllWs(s) by { assert !IsWs(s[lo]); }
      s[lo..|s| - n]
  }

  lemma AllWsConcat(a: string, b: string)
    ensures AllWs(a + b) <==> AllWs(a) && AllWs(b)
  {
    if AllWs(a) && AllWs(b) {
      forall i | 0 <= i < |a + b| ensures IsWs((a + b)[i]) {
        if i >= |a| { assert (a + b)[i] == b[i - |a|]; }
      }
    }
    if AllWs(a + b) {
      forall i | 0 <= i < |a| ensures IsWs(a[i]) { assert (a + b)[i] == a[i]; }
      forall i | 0 <= i < |b| ensures IsWs(b[i]) { assert (a + b)[|a| + i] == b[i]; }
    }
  }

  /** Trimming twice is trimming once. */
  lemma TrimIdempotent(s: string)
    ensures Trim(Trim(s)) == Trim(s)
  {
    var r := Trim(s);
    if r != [] {
      assert LeadingWs(r) == 0;
      assert TrailingWs(r) == 0;
    }
  }

  /** `s.split(sep)` for a one-character separator: the pieces between separators,
      at least one, none containing `sep`. */
  function Split(s: string, sep: char): (parts: seq<string>)
    ensures |parts| >= 1
    ensures forall i :: 0 <= i < |parts| ==> sep !in parts[i]
    decreases |s|
  {
    if s == [] then [""]
    else
      var rest := Split(s[1..], sep);
      if s[0] == sep then [""] + rest
      else [[s[0]] + rest[0]] + rest[1..]
  }

  /** `parts.join(sep)`, the partner of `Split`. */
  function Join(parts: seq<string>, sep: char): string
    requires |parts| >= 1
  {
    if |parts| == 1 then parts[0] else parts[0] + [sep] + Join(parts[1..], sep)
  }

  /** Joining the pieces of a split restores the string. */
  lemma {:induction false} JoinSplit(s: string, sep: char)
    ensures Join(Split(s, sep), sep) == s
    decreases |s|
  {
    if s != [] {
      var rest := Split(s[1..], sep);
      JoinSplit(s[1..], sep);
      if s[0] == sep {
        assert Split(s, sep) == [""] + rest;
        assert ([""] + rest)[1..] == rest;
      } else {
        var parts := Split(s, sep);
        assert parts == [[s[0]] + rest[0]] + rest[1..];
        if |rest| == 1 {
          assert parts == [[s[0]] + rest[0]];
        } else {
          assert parts[1..] == rest[1..];
          assert Join(rest, sep) == rest[0] + [sep] + Join(rest[1..], sep);
        }
        assert [s[0]] + s[1..] == s;
      }
    }
  }

  /** Splitting a piece free of the separator, followed by the separator, peels that piece off. */
  lemma {:induction false} SplitCons(a: string, sep: char, b: string)
    requires sep !in a
    ensures Split(a + [sep] + b, sep) == [a] + Split(b, sep)
    decreases |a|
  {
    if a == [] {
      assert a + [sep] + b == [sep] + b;
      assert ([sep] + b)[1..] == b;
    } else {
      SplitCons(a[1..], sep, b);
      assert (a + [sep] + b)[1..] == a[1..] + [sep] + b;
      assert [a[0]] + a[1..] == a;
    }
  }

  /** A string free of the separator splits into itself alone. */
  lemma {:induction false} SplitAtom(a: string, sep: char)
    requires sep !in a
    ensures Split(a, sep) == [a]
    decreases |a|
  {
    if a != [] {
      SplitAtom(a[1..], sep);
      assert [a[0]] + a[1..] == a;
    }
  }

  /** Splitting a join of separator-free pieces gives the pieces back. */
  lemma {:induction false} SplitJoin(parts: seq<string>, sep: char)
    requires |parts| >= 1
    requires forall i :: 0 <= i < |parts| ==> sep !in parts[i]
    ensures Split(Join(parts, sep), sep) == parts
    decreases |parts|
  {
    if |parts| == 1 {
      SplitAtom(parts[0], sep);
    } else {
      SplitJoin(parts[1..], sep);
      SplitCons(parts[0], sep, Join(parts[1..], sep));
      assert [parts[0]] + parts[1..] == parts;
    }
  }

  /** With a white-space separator, a joined string is blank exactly when every piece is. */
  lemma {:induction false} AllWsJoin(parts: seq<string>, sep: char)
    requires |parts| >= 1 && IsWs(sep)
    ensures AllWs(Join(parts, sep)) <==> forall i :: 0 <= i < |parts| ==> AllWs(parts[i])
    decreases |parts|
  {
    if |parts| > 1 {
      AllWsJoin(parts[1..], sep);
      AllWsConcat(parts[0] + [sep], Join(parts[1..], sep));
      AllWsConcat(parts[0], [sep]);
      if AllWs(Join(parts, sep)) {
        forall i | 0 <= i < |parts| ensures AllWs(parts[i]) {
          if i > 0 { assert parts[i] == parts[1..][i - 1]; }
        }
      }
      if forall i :: 0 <= i < |parts| ==> AllWs(parts[i]) {
        forall i | 0 <= i < |parts| - 1 ensures AllWs(parts[1..][i]) {
          assert parts[1..][i] == parts[i + 1];
        }
      }
    }
  }
}
