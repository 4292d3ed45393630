/** The name box of the generator: the lines it keeps, the text each certificate
    shows, and the archive file name each line is saved under. */
module NameList {
  import opened Text

  /** A line holding something besides white space. */
  predicate NonBlank(line: string) {
    !AllWs(line)
  }

  /** The filter's test `line.trim()` is truthy exactly for the non-blank lines. */
  lemma TrimmedIffNonBlank(line: string)
    ensures Trim(line) != [] <==> NonBlank(line)
  {
  }

  /** `names.split("\n")`. */
  function Lines(names: string): (lines: seq<string>)
    ensures lines != [] && Join(lines, '\n') == names
    ensures forall k :: 0 <= k < |lines| ==> '\n' !in lines[k]
  {
    JoinSplit(names, '\n');
    Split(names, '\n')
  }

  /** `lines.filter((n) => n.trim())`: by `TrimmedIffNonBlank` the kept lines are the
      non-blank ones. */
  function KeepNonBlank(lines: seq<string>): (kept: seq<string>)
    ensures |kept| <= |lines|
    ensures forall k :: 0 <= k < |kept| ==> NonBlank(kept[k])
  {
    if lines == [] then []
    else
      var last := lines[|lines| - 1];
      KeepNonBlank(lines[..|lines| - 1]) + (if NonBlank(last) then [last] else [])
  }

  /** Every kept line is one of the lines given. */
  lemma {:induction false} KeptSubsequence(lines: seq<string>)
    ensures forall k :: 0 <= k < |KeepNonBlank(lines)| ==> KeepNonBlank(lines)[k] in lines
  {
    if lines != [] {
      var n := |lines| - 1;
      KeptSubsequence(lines[..n]);
      assert forall x :: x in lines[..n] ==> x in lines;
    }
  }

  /** The lines of `names` that generation renders, in input order. */
  function KeptLines(names: string): (kept: seq<string>)
    ensures |kept| <= |Lines(names)|
    ensures forall k :: 0 <= k < |kept| ==> NonBlank(kept[k]) && '\n' !in kept[k]
  {
    KeptSubsequence(Lines(names));
    KeepNonBlank(Lines(names))
  }

  /** Ascending positions of the non-blank lines: an independent account of what the
      filter keeps. */
  function NonBlankPositions(lines: seq<string>): (ps: seq<nat>)
    ensures forall k :: 0 <= k < |ps| ==> ps[k] < |lines| && NonBlank(lines[ps[k]])
    ensures forall k, l :: 0 <= k < l < |ps| ==> ps[k] < ps[l]
    ensures forall j :: 0 <= j < |lines| && NonBlank(lines[j]) ==> j in ps
  {
    if lines == [] then []
    else
      var n := |lines| - 1;
      var front := NonBlankPositions(lines[..n]);
      assert forall k :: 0 <= k < |front| ==> lines[..n][front[k]] == lines[front[k]];
      assert forall j :: 0 <= j < n ==> lines[..n][j] == lines[j];
      front + (if NonBlank(lines[n]) then [n] else [])
  }

  /** The filter keeps exactly the non-blank lines, in their input order, each once. */
  lemma {:induction false} KeptInOrder(lines: seq<string>)
    ensures var kept, ps := KeepNonBlank(lines), NonBlankPositions(lines);
            |kept| == |ps| && forall k :: 0 <= k < |kept| ==> kept[k] == lines[ps[k]]
  {
    if lines != [] {
      var n := |lines| - 1;
      var front := lines[..n];
      KeptInOrder(front);
      var kept0, ps0 := KeepNonBlank(front), NonBlankPositions(front);
      var tail := if NonBlank(lines[n]) then [lines[n]] else [];
      var tailPs := if NonBlank(lines[n]) then [n] else [];
      assert KeepNonBlank(lines) == kept0 + tail;
      assert NonBlankPositions(lines) == ps0 + tailPs;
      forall k | 0 <= k < |kept0| ensures kept0[k] == lines[ps0[k]] {
        assert front[ps0[k]] == lines[ps0[k]];
      }
    }
  }

  /** Nothing is kept exactly when every line is blank. */
  lemma {:induction false} KeepNoneIffAllBlank(lines: seq<string>)
    ensures KeepNonBlank(lines) == [] <==> forall i :: 0 <= i < |lines| ==> !NonBlank(lines[i])
  {
    if lines != [] {
      var n := |lines| - 1;
      KeepNoneIffAllBlank(lines[..n]);
      assert forall i :: 0 <= i < n ==> lines[..n][i] == lines[i];
    }
  }

  /** `!names.trim()`, the early-return guard of the page handlers, holds exactly when
      the filter keeps no line. */
  lemma NoKeptLinesIffBlankInput(names: string)
    ensures KeptLines(names) == [] <==> Trim(names) == []
  {
    var lines := Lines(names);
    JoinSplit(names, '\n');
    AllWsJoin(lines, '\n');
    KeepNoneIffAllBlank(lines);
  }

  /** `line.replace(/\s+/g, "_")`: every maximal white-space run becomes one `_`. */
  function Slug(s: string): (r: string)
    ensures NoWs(r)
    decreases |s|
  {
    if s == [] then []
    else if IsWs(s[0]) then
      var rest := Slug(s[LeadingWs(s)..]);
      assert forall i :: 0 < i < 1 + |rest| ==> ("_" + rest)[i] == rest[i - 1];
      "_" + rest
    else
      var rest := Slug(s[1..]);
      assert forall i :: 0 < i < 1 + |rest| ==> ([s[0]] + rest)[i] == rest[i - 1];
      [s[0]] + rest
  }

  /** A string without white space is its own slug. */
  lemma {:induction false} SlugOfNoWs(s: string)
    requires NoWs(s)
    ensures Slug(s) == s
    decreases |s|
  {
    if s != [] {
      SlugOfNoWs(s[1..]);
      assert [s[0]] + s[1..] == s;
    }
  }

  /** The slug leaves a string unchanged exactly when the string has no white space. */
  lemma SlugFixedIffNoWs(s: string)
    ensures Slug(s) == s <==> NoWs(s)
  {
    if NoWs(s) { SlugOfNoWs(s); }
  }

  /** Slugging twice is slugging once. */
  lemma SlugIdempotent(s: string)
    ensures Slug(Slug(s)) == Slug(s)
  {
    SlugOfNoWs(Slug(s));
  }

  /** A white-space run followed by text that does not start with white space becomes
      one `_` followed by the slug of that text. */
  lemma {:induction false} SlugOfRun(w: string, b: string)
    requires w != [] && AllWs(w)
    requires b == [] || !IsWs(b[0])
    ensures Slug(w + b) == "_" + Slug(b)
  {
    var s := w + b;
    assert s[0] == w[0];
    LeadingWsOfRun(w, b);
    assert s[|w|..] == b;
  }

  /** The slug splits at any character that is not white space. */
  lemma {:induction false} SlugAtNonWs(a: string, c: char, b: string)
    requires !IsWs(c)
    ensures Slug(a + [c] + b) == Slug(a) + [c] + Slug(b)
    decreases |a|
  {
    if a == [] {
      assert a + [c] + b == [c] + b;
      assert ([c] + b)[1..] == b;
    } else if !IsWs(a[0]) {
      SlugAtNonWs(a[1..], c, b);
      assert (a + [c] + b)[1..] == a[1..] + [c] + b;
      assert (a + [c] + b)[0] == a[0];
    } else {
      var n := LeadingWs(a);
      assert a[..n] + a[n..] == a;
      SlugAtNonWs(a[n..], c, b);
      SlugAfterRun(a[..n], a[n..], c, b);
    }
  }

  /** The white-space case of `SlugAtNonWs`: the leading run of `w + t` is `w`. */
  lemma SlugAfterRun(w: string, t: string, c: char, b: string)
    requires w != [] && AllWs(w) && !IsWs(c)
    requires t == [] || !IsWs(t[0])
    requires Slug(t + [c] + b) == Slug(t) + [c] + Slug(b)
    ensures Slug(w + t + [c] + b) == Slug(w + t) + [c] + Slug(b)
  {
    var u := t + [c] + b;
    assert u[0] == if t == [] then c else t[0];
    var su, st, sb := Slug(u), Slug(t), Slug(b);
    calc {
      Slug(w + t + [c] + b);
      { assert w + t + [c] + b == w + u; }
      Slug(w + u);
      { SlugOfRun(w, u); }
      "_" + su;
      "_" + (st + [c] + sb);
      { assert "_" + (st + [c] + sb) == ("_" + st) + [c] + sb; }
      ("_" + st) + [c] + sb;
      { SlugOfRun(w, t); }
      Slug(w + t) + [c] + sb;
    }
  }

  /** A non-empty white-space-only string slugs to a single `_`. */
  lemma SlugOfBlank(w: string)
    requires w != [] && AllWs(w)
    ensures Slug(w) == "_"
  {
    SlugOfRun(w, []);
    assert w + [] == w;
  }

  const CertificateSuffix := "_certificate.png"

  /** The archive path of a line: `${name.replace(/\s+/g, "_")}_certificate.png`, built
      from the untrimmed line. */
  function FileName(line: string): (path: string)
    ensures |path| >= |CertificateSuffix| && path[|path| - |CertificateSuffix|..] == CertificateSuffix
    ensures NoWs(path)
  {
    var slug := Slug(line);
    assert (slug + CertificateSuffix)[|slug|..] == CertificateSuffix;
    assert forall i :: 0 <= i < |CertificateSuffix| ==> !IsWs(CertificateSuffix[i]);
    assert forall i :: |slug| <= i < |slug| + |CertificateSuffix| ==>
      (slug + CertificateSuffix)[i] == CertificateSuffix[i - |slug|];
    slug + CertificateSuffix
  }

  /** A word, a white-space run, then the rest: the run becomes one `_` after the word. */
  lemma SlugOfWordThenRun(word: string, w: string, rest: string)
    requires word != [] && NoWs(word)
    requires w != [] && AllWs(w)
    requires rest == [] || !IsWs(rest[0])
    ensures Slug(word + w + rest) == word + "_" + Slug(rest)
  {
    var k := |word| - 1;
    var front, c := word[..k], word[k];
    assert word == front + [c];
    assert NoWs(front);
    var sf, sr := Slug(front), Slug(rest);
    calc {
      Slug(word + w + rest);
      { assert word + w + rest == front + [c] + (w + rest); }
      Slug(front + [c] + (w + rest));
      { SlugAtNonWs(front, c, w + rest); }
      sf + [c] + Slug(w + rest);
      { SlugOfNoWs(front); SlugOfRun(w, rest); }
      front + [c] + ("_" + sr);
      { assert front + [c] + ("_" + sr) == word + "_" + sr; }
      word + "_" + sr;
    }
  }

  /** The untrimmed line names the file: `" Jane Doe"` and every line of that shape,
      a blank run, a word, a blank run, a word, gets a leading `_`. */
  lemma FileNameKeepsLeadingBlank(lead: string, first: string, gap: string, last: string)
    requires lead != [] && AllWs(lead) && gap != [] && AllWs(gap)
    requires first != [] && NoWs(first) && last != [] && NoWs(last)
    ensures FileName(lead + first + gap + last) == "_" + first + "_" + last + CertificateSuffix
  {
    assert lead + first + gap + last == lead + (first + gap + last);
    SlugOfRun(lead, first + gap + last);
    SlugOfWordThenRun(first, gap, last);
    SlugOfNoWs(last);
  }

  /** Lines that differ only in the length of a white-space run between two words,
      such as `"Jane  Smith"` and `"Jane Smith"`, share a file name. */
  lemma FileNamesCollide(first: string, gap1: string, gap2: string, last: string)
    requires first != [] && NoWs(first)
    requires gap1 != [] && AllWs(gap1) && gap2 != [] && AllWs(gap2)
    requires last == [] || !IsWs(last[0])
    ensures FileName(first + gap1 + last) == FileName(first + gap2 + last)
  {
    SlugOfWordThenRun(first, gap1, last);
    SlugOfWordThenRun(first, gap2, last);
  }
}
