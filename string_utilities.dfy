/** `cleanString` of utilities/StringUtilities.ts. Each JavaScript string step is
    modelled on its own: `replace` with a string pattern (first occurrence only),
    `split('\n')`, `trim`, `replace(/\s+/g, ' ')`, `join('\n')` and
    `replace(/\n+/g, '\n')`. */
module StringUtilities {
  import opened Wrappers
  import opened Text
  import opened Seqs

  /** The first index at which `pat` occurs in `s`, if any. */
  function IndexOf(s: string, pat: string): (r: Option<nat>)
    ensures r.Some? ==> OccursAt(s, pat, r.value) && forall k :: 0 <= k < r.value ==> !OccursAt(s, pat, k)
    ensures r.None? ==> forall k :: !OccursAt(s, pat, k)
    decreases |s|
  {
    if |pat| > |s| then None
    else if s[..|pat|] == pat then Some(0)
    else
      var rest := IndexOf(s[1..], pat);
      assert forall k :: 1 <= k ==> (OccursAt(s, pat, k) <==> OccursAt(s[1..], pat, k - 1)) by {
        forall k | 1 <= k ensures OccursAt(s, pat, k) <==> OccursAt(s[1..], pat, k - 1) {
          if 0 <= k - 1 <= |s[1..]| - |pat| {
            assert s[1..][k - 1..k - 1 + |pat|] == s[k..k + |pat|];
          }
        }
      }
      if rest.Some? then Some(rest.value + 1) else None
  }

  /** `s.replace(pat, rep)` with a string pattern: only the first occurrence is rewritten. */
  function ReplaceFirst(s: string, pat: string, rep: string): (r: string)
    ensures IndexOf(s, pat).None? ==> r == s
    ensures IndexOf(s, pat).Some? ==>
              var i := IndexOf(s, pat).value;
              r == s[..i] + rep + s[i + |pat|..]
    ensures |rep| <= |pat| ==> |r| <= |s|
  {
    match IndexOf(s, pat)
    case None => s
    case Some(i) => s[..i] + rep + s[i + |pat|..]
  }

  /** The tab `replace` removes one tab, the first, and keeps every other
      character, later tabs included. */
  lemma {:induction false} TabReplaceRemovesOne(s: string)
    ensures '\t' in s ==> multiset(ReplaceFirst(s, "\t", "")) == multiset(s) - multiset{'\t'}
    ensures '\t' !in s ==> ReplaceFirst(s, "\t", "") == s
  {
    match IndexOf(s, "\t")
    case None =>
      forall k | 0 <= k < |s| ensures s[k] != '\t' {
        assert !OccursAt(s, "\t", k);
        assert s[k..k + 1] == [s[k]];
      }
    case Some(i) =>
      assert s[i..i + 1] == "\t";
      assert s == s[..i] + [s[i]] + s[i + 1..];
      assert multiset(s) == multiset(s[..i]) + multiset{'\t'} + multiset(s[i + 1..]);
  }

  /** `s.split('\n')`. */
  function SplitLines(s: string): (r: seq<string>)
    ensures |r| >= 1
    ensures forall k :: 0 <= k < |r| ==> '\n' !in r[k]
    decreases |s|
  {
    match IndexOf(s, "\n")
    case None =>
      assert forall k :: 0 <= k < |s| ==> s[k] != '\n' by {
        forall k | 0 <= k < |s| ensures s[k] != '\n' {
          assert !OccursAt(s, "\n", k);
          assert s[k..k + 1] == [s[k]];
        }
      }
      [s]
    case Some(i) =>
      assert '\n' !in s[..i] by {
        forall k | 0 <= k < i ensures s[k] != '\n' {
          assert !OccursAt(s, "\n", k);
          assert s[k..k + 1] == [s[k]];
        }
      }
      [s[..i]] + SplitLines(s[i + 1..])
  }

  /** `parts.join(sep)`: `join('\n')` for lines and `join(' ')` for words. */
  function Join(parts: seq<string>, sep: string): string
  {
    if |parts| == 0 then ""
    else if |parts| == 1 then parts[0]
    else parts[0] + sep + Join(parts[1..], sep)
  }

  lemma {:induction false} JoinSplit(s: string)
    ensures Join(SplitLines(s), "\n") == s
    decreases |s|
  {
    match IndexOf(s, "\n")
    case None =>
      assert SplitLines(s) == [s];
    case Some(i) =>
      var rest := SplitLines(s[i + 1..]);
      assert SplitLines(s) == [s[..i]] + rest;
      assert Join(rest, "\n") == s[i + 1..] by { JoinSplit(s[i + 1..]); }
      assert Join([s[..i]] + rest, "\n") == s[..i] + "\n" + Join(rest, "\n") by {
        assert ([s[..i]] + rest)[1..] == rest;
      }
      assert s == s[..i] + "\n" + s[i + 1..] by {
        assert OccursAt(s, "\n", i);
        assert s[i..i + 1] == "\n";
      }
  }

  /** The characters of `s` that are not white space, in order. */
  function NonSpace(s: string): string
  {
    if s == [] then [] else (if IsSpace(s[0]) then [] else [s[0]]) + NonSpace(s[1..])
  }

  lemma {:induction false} NonSpaceAppend(a: string, b: string)
    ensures NonSpace(a + b) == NonSpace(a) + NonSpace(b)
  {
    if a == [] {
      assert a + b == b;
    } else {
      assert (a + b)[1..] == a[1..] + b;
      NonSpaceAppend(a[1..], b);
    }
  }

  /** Every character of `p` is white space. */
  ghost predicate AllSpace(p: string)
  {
    forall k :: 0 <= k < |p| ==> IsSpace(p[k])
  }

  /** `s.trimStart()`. */
  function TrimStart(s: string): (r: string)
    ensures |r| <= |s|
    ensures r == [] || !IsSpace(r[0])
    ensures r == s[|s| - |r|..]
    ensures AllSpace(s[..|s| - |r|])
  {
    if s != [] && IsSpace(s[0]) then
      var r := TrimStart(s[1..]);
      var d := |s| - |r|;
      assert AllSpace(s[..d]) by {
        assert forall k :: 1 <= k < d ==> s[..d][k] == s[1..][..d - 1][k - 1];
      }
      r
    else s
  }

  /** `s.trimEnd()`. */
  function TrimEnd(s: string): (r: string)
    ensures |r| <= |s|
    ensures r == [] || !IsSpace(r[|r| - 1])
    ensures r == s[..|r|]
    ensures AllSpace(s[|r|..])
  {
    if s != [] && IsSpace(s[|s| - 1]) then
      var init := s[..|s| - 1];
      var r := TrimEnd(init);
      assert init[..|r|] == s[..|r|];
      assert AllSpace(s[|r|..]) by {
        assert forall k :: 0 <= k < |init| - |r| ==> s[|r|..][k] == init[|r|..][k];
      }
      r
    else s
  }

  /** `s.trim()`: the stretch of `s` left once the white space at both ends is
      dropped. */
  function Trim(s: string): (r: string)
    ensures |r| <= |s|
    ensures r == [] || (!IsSpace(r[0]) && !IsSpace(r[|r| - 1]))
    ensures var i := |s| - |TrimStart(s)|;
            && i + |r| <= |s|
            && s == s[..i] + r + s[i + |r|..]
            && AllSpace(s[..i]) && AllSpace(s[i + |r|..])
  {
    var t := TrimStart(s);
    var r := TrimEnd(t);
    assert |t| <= |s| && t == s[|s| - |t|..] && AllSpace(s[..|s| - |t|]);
    assert |r| <= |t| && r == t[..|r|] && AllSpace(t[|r|..]);
    TrimParts(s, t, r);
    assert r == [] || (!IsSpace(r[0]) && !IsSpace(r[|r| - 1]));
    r
  }

  /** Trimming both ends, on plain sequences: `t` is `s` after its white-space
      prefix, `r` is `t` before its white-space suffix. */
  lemma TrimParts(s: string, t: string, r: string)
    requires |t| <= |s| && t == s[|s| - |t|..] && AllSpace(s[..|s| - |t|])
    requires |r| <= |t| && r == t[..|r|] && AllSpace(t[|r|..])
    ensures r == [] || r[0] == t[0]
    ensures var i := |s| - |t|;
            && s == s[..i] + r + s[i + |r|..]
            && AllSpace(s[i + |r|..])
  {
    var i := |s| - |t|;
    assert s[i + |r|..] == t[|r|..];
    assert t == r + t[|r|..];
    assert s == s[..i] + t;
  }

  /** Dropping a white-space prefix keeps the non-white-space characters. */
  lemma {:induction false} TrimStartKeepsText(s: string)
    ensures NonSpace(TrimStart(s)) == NonSpace(s)
    decreases |s|
  {
    if s != [] && IsSpace(s[0]) {
      TrimStartKeepsText(s[1..]);
    }
  }

  /** Dropping a white-space suffix keeps the non-white-space characters. */
  lemma {:induction false} TrimEndKeepsText(s: string)
    ensures NonSpace(TrimEnd(s)) == NonSpace(s)
    decreases |s|
  {
    if s != [] && IsSpace(s[|s| - 1]) {
      var init := s[..|s| - 1];
      TrimEndKeepsText(init);
      assert s == init + [s[|s| - 1]];
      NonSpaceAppend(init, [s[|s| - 1]]);
      assert [s[|s| - 1]][1..] == [];
    }
  }

  /** Trimming removes only white space: the non-white-space characters of the
      line are kept, in order. */
  lemma TrimKeepsText(s: string)
    ensures NonSpace(Trim(s)) == NonSpace(s)
  {
    TrimStartKeepsText(s);
    TrimEndKeepsText(TrimStart(s));
  }

  /** `s.replace(/\s+/g, ' ')`: every maximal run of white space becomes one
      space; `afterSpace` says a run is already open. */
  function CollapseSpaces(s: string, afterSpace: bool): (r: string)
    ensures |r| <= |s|
  {
    if s == [] then []
    else if IsSpace(s[0]) then
      (if afterSpace then [] else [' ']) + CollapseSpaces(s[1..], true)
    else [s[0]] + CollapseSpaces(s[1..], false)
  }

  /** Collapsing white space keeps every other character, in order. */
  lemma {:induction false} CollapseSpacesKeepsText(s: string, afterSpace: bool)
    ensures NonSpace(CollapseSpaces(s, afterSpace)) == NonSpace(s)
  {
    if s != [] {
      var head := if IsSpace(s[0]) then (if afterSpace then [] else [' ']) else [s[0]];
      var rest := CollapseSpaces(s[1..], IsSpace(s[0]));
      assert CollapseSpaces(s, afterSpace) == head + rest;
      CollapseSpacesKeepsText(s[1..], IsSpace(s[0]));
      NonSpaceAppend(head, rest);
      assert NonSpace(head) == if IsSpace(s[0]) then [] else [s[0]] by {
        if head != [] { assert head[1..] == []; }
      }
    }
  }

  /** The per-line step of `cleanString`: `line.trim().replace(/\s+/g, ' ')`.
      Only white space changes. */
  function CleanLine(line: string): (r: string)
    ensures NonSpace(r) == NonSpace(line)
  {
    TrimKeepsText(line);
    CollapseSpacesKeepsText(Trim(line), false);
    CollapseSpaces(Trim(line), false)
  }

  // ---------------------------------------------------------------------------
  // Words: what `trim().replace(/\s+/g, ' ')` leaves of a line.

  /** No character of `w` is white space. */
  ghost predicate NoSpace(w: string)
  {
    forall k :: 0 <= k < |w| ==> !IsSpace(w[k])
  }

  /** The length of the longest prefix of `s` that holds no white space. */
  function RunLength(s: string): (n: nat)
    ensures n <= |s|
    ensures NoSpace(s[..n])
    ensures n < |s| ==> IsSpace(s[n])
  {
    if s == [] || IsSpace(s[0]) then 0
    else
      var m := RunLength(s[1..]);
      var n := m + 1;
      assert NoSpace(s[..n]) by {
        assert forall k :: 1 <= k < n ==> s[..n][k] == s[1..][..m][k - 1];
      }
      n
  }

  /** The words of `s`: its maximal runs of non-white-space characters, in order. */
  function Words(s: string): (r: seq<string>)
    ensures forall k :: 0 <= k < |r| ==> r[k] != [] && NoSpace(r[k])
    decreases |s|
  {
    if s == [] then []
    else if IsSpace(s[0]) then Words(s[1..])
    else
      var n := RunLength(s);
      [s[..n]] + Words(s[n..])
  }

  /** Leading white space separates no word. */
  lemma {:induction false} WordsSkipSpace(p: string, t: string)
    requires AllSpace(p)
    ensures Words(p + t) == Words(t)
    decreases |p|
  {
    if p == [] {
      assert p + t == t;
    } else {
      assert (p + t)[1..] == p[1..] + t;
      assert IsSpace((p + t)[0]) by { assert (p + t)[0] == p[0]; }
      assert AllSpace(p[1..]) by {
        assert forall k :: 0 <= k < |p| - 1 ==> p[1..][k] == p[k + 1];
      }
      WordsSkipSpace(p[1..], t);
    }
  }

  /** White space after the last character does not lengthen the first word. */
  lemma {:induction false} RunLengthAppend(r: string, q: string)
    requires AllSpace(q)
    ensures RunLength(r + q) == RunLength(r)
    decreases |r|
  {
    if r == [] {
      assert r + q == q;
      if q != [] {
        assert IsSpace(q[0]);
      }
    } else {
      assert (r + q)[0] == r[0];
      assert (r + q)[1..] == r[1..] + q;
      RunLengthAppend(r[1..], q);
    }
  }

  /** Trailing white space separates no word. */
  lemma {:induction false} WordsDropSpace(r: string, q: string)
    requires AllSpace(q)
    ensures Words(r + q) == Words(r)
    decreases |r|
  {
    if r == [] {
      assert q + [] == q && r + q == q;
      WordsSkipSpace(q, []);
    } else {
      var s := r + q;
      assert s[0] == r[0];
      assert s[1..] == r[1..] + q;
      if IsSpace(r[0]) {
        WordsDropSpace(r[1..], q);
      } else {
        var n := RunLength(r);
        RunLengthAppend(r, q);
        assert s[..n] == r[..n];
        assert s[n..] == r[n..] + q;
        WordsDropSpace(r[n..], q);
      }
    }
  }

  /** A word is copied as it stands, and a run after it is not yet open. */
  lemma {:induction false} CollapseWord(w: string, t: string, afterSpace: bool)
    requires w != [] && NoSpace(w)
    ensures CollapseSpaces(w + t, afterSpace) == w + CollapseSpaces(t, false)
    decreases |w|
  {
    assert (w + t)[0] == w[0] && !IsSpace(w[0]);
    assert (w + t)[1..] == w[1..] + t;
    if |w| > 1 {
      assert NoSpace(w[1..]) by {
        assert forall k :: 0 <= k < |w| - 1 ==> w[1..][k] == w[k + 1];
      }
      CollapseWord(w[1..], t, false);
    } else {
      assert w[1..] + t == t;
    }
  }

  /** `replace(/\s+/g, ' ')` turns a whole run of white space into one space,
      or into nothing when a run is already open. */
  lemma {:induction false} CollapseRun(p: string, t: string, afterSpace: bool)
    requires p != [] && AllSpace(p)
    ensures CollapseSpaces(p + t, afterSpace) == (if afterSpace then [] else [' ']) + CollapseSpaces(t, true)
    decreases |p|
  {
    assert (p + t)[0] == p[0] && IsSpace(p[0]);
    assert (p + t)[1..] == p[1..] + t;
    if |p| > 1 {
      assert AllSpace(p[1..]) by {
        assert forall k :: 0 <= k < |p| - 1 ==> p[1..][k] == p[k + 1];
      }
      CollapseRun(p[1..], t, true);
    } else {
      assert p[1..] + t == t;
    }
  }

  /** A string that ends in a non-space keeps something after `trimStart`. */
  lemma {:induction false} TrimStartNonEmpty(s: string)
    requires s != [] && !IsSpace(s[|s| - 1])
    ensures TrimStart(s) != []
    decreases |s|
  {
    if IsSpace(s[0]) {
      assert |s| > 1;
      assert s[1..][|s| - 2] == s[|s| - 1];
      TrimStartNonEmpty(s[1..]);
    }
  }

  /** A string whose ends are not white space collapses to its words, separated
      by single spaces. */
  lemma {:induction false} CollapseWords(s: string, afterSpace: bool)
    requires s == [] || (!IsSpace(s[0]) && !IsSpace(s[|s| - 1]))
    ensures CollapseSpaces(s, afterSpace) == Join(Words(s), " ")
    decreases |s|
  {
    if s != [] {
      var n := RunLength(s);
      var w, rest := s[..n], s[n..];
      SuffixParts(s, n);
      assert Words(s) == [w] + Words(rest);
      assert CollapseSpaces(s, afterSpace) == w + CollapseSpaces(rest, false) by {
        CollapseWord(w, rest, afterSpace);
      }
      if rest == [] {
        assert w + [] == w;
      } else {
        TrimStartNonEmpty(rest);
        var u := TrimStart(rest);
        var i := |rest| - |u|;
        assert i > 0 by { assert IsSpace(rest[0]); }
        var p := rest[..i];
        var ws := Words(u);
        SuffixParts(rest, i);
        assert CollapseSpaces(rest, false) == " " + Join(ws, " ") by {
          CollapseRun(p, u, false);
          assert CollapseSpaces(u, true) == CollapseSpaces(u, false);
          CollapseWords(u, false);
        }
        assert Words(rest) == ws by {
          WordsSkipSpace(p, u);
        }
        JoinCons(w, ws, " ");
        ConcatAssoc(w, " ", Join(ws, " "));
      }
    }
  }

  /** A sequence is its prefix and suffix at `k`, and the suffix ends where it does. */
  lemma SuffixParts(s: string, k: nat)
    requires k <= |s|
    ensures s == s[..k] + s[k..]
    ensures k < |s| ==> s[k..][|s| - k - 1] == s[|s| - 1]
  {
  }

  /** `join` of a list with at least two entries puts the separator after the first. */
  lemma JoinCons(x: string, xs: seq<string>, sep: string)
    requires xs != []
    ensures Join([x] + xs, sep) == x + sep + Join(xs, sep)
  {
    assert ([x] + xs)[1..] == xs;
  }



  /** Trimming separates no word. */
  lemma WordsTrim(line: string)
    ensures Words(Trim(line)) == Words(line)
  {
    var t := TrimStart(line);
    var r := TrimEnd(t);
    assert Words(line) == Words(t) by {
      SuffixParts(line, |line| - |t|);
      WordsSkipSpace(line[..|line| - |t|], t);
    }
    assert Words(t) == Words(r) by {
      SuffixParts(t, |r|);
      WordsDropSpace(r, t[|r|..]);
    }
  }

  /** A cleaned line is the words of the line separated by single spaces. */
  lemma CleanLineWords(line: string)
    ensures CleanLine(line) == Join(Words(line), " ")
  {
    var r := Trim(line);
    assert r == [] || (!IsSpace(r[0]) && !IsSpace(r[|r| - 1]));
    WordsTrim(line);
    CollapseWords(r, false);
  }



  /** `s.replace(/\n+/g, '\n')`: each newline that follows a newline is
      deleted; `afterNewline` says a run is already open. */
  function CollapseNewlines(s: string, afterNewline: bool): (r: string)
    ensures |r| <= |s|
  {
    if s == [] then []
    else if s[0] == '\n' then
      (if afterNewline then [] else ['\n']) + CollapseNewlines(s[1..], true)
    else [s[0]] + CollapseNewlines(s[1..], false)
  }

  /** Collapsing newlines removes only newlines. */
  lemma {:induction false} CollapseNewlinesKeepsText(s: string, afterNewline: bool)
    ensures NonSpace(CollapseNewlines(s, afterNewline)) == NonSpace(s)
  {
    if s != [] {
      var head := if s[0] == '\n' then (if afterNewline then [] else ['\n']) else [s[0]];
      var rest := CollapseNewlines(s[1..], s[0] == '\n');
      assert CollapseNewlines(s, afterNewline) == head + rest;
      CollapseNewlinesKeepsText(s[1..], s[0] == '\n');
      NonSpaceAppend(head, rest);
      assert NonSpace(head) == if IsSpace(s[0]) then [] else [s[0]] by {
        if head != [] { assert head[1..] == []; }
      }
    }
  }

  function MapCleanLine(lines: seq<string>): (r: seq<string>)
    ensures |r| == |lines|
    ensures forall k :: 0 <= k < |r| ==> r[k] == CleanLine(lines[k])
  {
    seq(|lines|, k requires 0 <= k < |lines| => CleanLine(lines[k]))
  }

  /** The three string-pattern `replace` calls at the head of `cleanString`:
      the first CR LF, the first tab and the first backslash-t. */
  function ReplaceEscapes(text: string): (r: string)
    ensures |r| <= |text|
  {
    var crlf := ReplaceFirst(text, "\r\n", "\n");
    var tab := ReplaceFirst(crlf, "\t", "");
    ReplaceFirst(tab, "\\t", " ")
  }

  /** `cleanString(content)`. `None` is `null`. Apart from the three literal
      replacements, only white space changes: every other character is kept,
      in order. */
  function CleanString(content: Option<string>): (r: string)
    ensures Truthy(content) ==> NonSpace(r) == NonSpace(ReplaceEscapes(content.value))
  {
    if !Truthy(content) then ""
    else
      var s := ReplaceEscapes(content.value);
      JoinCleanKeepsText(SplitLines(s));
      JoinSplit(s);
      CollapseNewlinesKeepsText(Join(MapCleanLine(SplitLines(s)), "\n"), false);
      CollapseNewlines(Join(MapCleanLine(SplitLines(s)), "\n"), false)
  }

  lemma NonSpaceJoin(a: string, b: string)
    ensures NonSpace(a + "\n" + b) == NonSpace(a) + NonSpace(b)
  {
    assert NonSpace("\n") == [];
    NonSpaceAppend(a + "\n", b);
    NonSpaceAppend(a, "\n");
  }

  /** Cleaning each line and joining keeps the non-white-space characters of
      the joined lines. */
  lemma {:induction false} JoinCleanKeepsText(lines: seq<string>)
    ensures NonSpace(Join(MapCleanLine(lines), "\n")) == NonSpace(Join(lines, "\n"))
  {
    var cleaned := MapCleanLine(lines);
    if |lines| == 1 {
      assert Join(cleaned, "\n") == CleanLine(lines[0]);
    } else if |lines| > 1 {
      var restC, restL := Join(cleaned[1..], "\n"), Join(lines[1..], "\n");
      assert NonSpace(restC) == NonSpace(restL) by {
        assert cleaned[1..] == MapCleanLine(lines[1..]);
        JoinCleanKeepsText(lines[1..]);
      }
      assert NonSpace(cleaned[0]) == NonSpace(lines[0]);
      assert Join(cleaned, "\n") == cleaned[0] + "\n" + restC;
      assert Join(lines, "\n") == lines[0] + "\n" + restL;
      NonSpaceJoin(cleaned[0], restC);
      NonSpaceJoin(lines[0], restL);
    }
  }

  // ---------------------------------------------------------------------------
  // What the output of cleanString looks like.

  predicate IsHorizontalSpace(c: char) { IsSpace(c) && c != '\n' }

  /** Every white-space character other than a newline is a plain space with a
      non-white-space character on each side; so no line starts or ends with
      white space, no line holds two white-space characters in a row, and no
      tab or carriage return is left. */
  ghost predicate SpacesTidy(s: string)
  {
    forall i :: 0 <= i < |s| && IsHorizontalSpace(s[i]) ==>
      s[i] == ' ' && 0 < i < |s| - 1 && !IsSpace(s[i - 1]) && !IsSpace(s[i + 1])
  }

  /** No two newlines in a row. */
  ghost predicate NoBlankLines(s: string)
  {
    forall i :: 0 <= i < |s| - 1 ==> !(s[i] == '\n' && s[i + 1] == '\n')
  }

  lemma {:induction false} TidyConcat(a: string, b: string)
    requires SpacesTidy(a) && SpacesTidy(b)
    ensures SpacesTidy(a + b)
  {
    forall i | 0 <= i < |a + b| && IsHorizontalSpace((a + b)[i])
      ensures (a + b)[i] == ' ' && 0 < i < |a + b| - 1
              && !IsSpace((a + b)[i - 1]) && !IsSpace((a + b)[i + 1])
    {
      if i < |a| {
        assert IsHorizontalSpace(a[i]);
      } else {
        assert IsHorizontalSpace(b[i - |a|]);
      }
    }
  }

  /** No newline, every white-space character a plain space, never two in a row. */
  ghost predicate SingleSpaced(r: string)
  {
    (forall i :: 0 <= i < |r| ==> r[i] != '\n' && (IsSpace(r[i]) ==> r[i] == ' '))
    && (forall i :: 0 <= i < |r| - 1 ==> !(IsSpace(r[i]) && IsSpace(r[i + 1])))
  }

  /** `CollapseSpaces` keeps the ends as it found them: an open run swallows
      leading white space, and a non-space first or last character stays. */
  lemma {:induction false} CollapseSpacesEnds(s: string, afterSpace: bool)
    ensures afterSpace ==> CollapseSpaces(s, afterSpace) == [] || !IsSpace(CollapseSpaces(s, afterSpace)[0])
    ensures s != [] && !IsSpace(s[0]) ==> CollapseSpaces(s, afterSpace) != [] && CollapseSpaces(s, afterSpace)[0] == s[0]
    ensures s != [] && !IsSpace(s[|s| - 1]) ==>
              CollapseSpaces(s, afterSpace) != [] && !IsSpace(CollapseSpaces(s, afterSpace)[|CollapseSpaces(s, afterSpace)| - 1])
  {
    if s != [] {
      CollapseSpacesEnds(s[1..], IsSpace(s[0]));
      if |s| > 1 {
        assert s[1..][|s[1..]| - 1] == s[|s| - 1];
      }
    }
  }

  /** `CollapseSpaces` leaves no newline, only plain spaces, and never two in a row. */
  lemma {:induction false} CollapseSpacesShape(s: string, afterSpace: bool)
    ensures SingleSpaced(CollapseSpaces(s, afterSpace))
  {
    if s != [] {
      CollapseSpacesShape(s[1..], IsSpace(s[0]));
      CollapseSpacesEnds(s[1..], IsSpace(s[0]));
      var t := CollapseSpaces(s[1..], IsSpace(s[0]));
      var r := CollapseSpaces(s, afterSpace);
      var head := if IsSpace(s[0]) then (if afterSpace then [] else [' ']) else [s[0]];
      assert r == head + t;
      assert IsSpace('\n');
      forall i | 0 <= i < |r| ensures r[i] != '\n' && (IsSpace(r[i]) ==> r[i] == ' ') {
        if i >= |head| {
          assert r[i] == t[i - |head|];
        }
      }
      forall i | 0 <= i < |r| - 1 ensures !(IsSpace(r[i]) && IsSpace(r[i + 1])) {
        if i >= |head| {
          assert r[i] == t[i - |head|] && r[i + 1] == t[i + 1 - |head|];
        }
      }
    }
  }

  /** A single-spaced string with non-space ends has tidy spaces. */
  lemma SingleSpacedTidy(r: string)
    requires SingleSpaced(r)
    requires r != [] ==> !IsSpace(r[0]) && !IsSpace(r[|r| - 1])
    ensures '\n' !in r && SpacesTidy(r)
  {
    forall i | 0 <= i < |r| && IsHorizontalSpace(r[i])
      ensures r[i] == ' ' && 0 < i < |r| - 1 && !IsSpace(r[i - 1]) && !IsSpace(r[i + 1])
    {
      assert i != 0 && i != |r| - 1;
      assert IsSpace(r[i]);
    }
  }

  /** Each cleaned line is free of newlines and its spaces are tidy. */
  lemma {:induction false} CleanLineTidy(line: string)
    ensures '\n' !in CleanLine(line)
    ensures SpacesTidy(CleanLine(line))
  {
    var t := Trim(line);
    var r := CollapseSpaces(t, false);
    CollapseSpacesShape(t, false);
    CollapseSpacesEnds(t, false);
    assert r != [] ==> !IsSpace(r[0]) && !IsSpace(r[|r| - 1]) by {
      if r != [] {
        assert t != [];
      }
    }
    SingleSpacedTidy(r);
  }

  /** `JoinLines` followed by `CollapseNewlines`, line by line: a line that is
      empty and follows a newline vanishes together with its newline. */
  function JoinCollapsed(lines: seq<string>, afterNewline: bool): string
    requires |lines| >= 1
  {
    if |lines| == 1 then lines[0]
    else if afterNewline && lines[0] == "" then JoinCollapsed(lines[1..], true)
    else lines[0] + "\n" + JoinCollapsed(lines[1..], true)
  }

  lemma {:induction false} CollapseNoNewline(a: string, b: string, afterNewline: bool)
    requires '\n' !in a && a != []
    ensures CollapseNewlines(a + b, afterNewline) == a + CollapseNewlines(b, false)
  {
    assert (a + b)[1..] == a[1..] + b;
    if |a| > 1 {
      CollapseNoNewline(a[1..], b, false);
    }
  }

  lemma {:induction false} CollapseNewlinesNoNewline(a: string, afterNewline: bool)
    requires '\n' !in a
    ensures CollapseNewlines(a, afterNewline) == a
  {
    if a != [] {
      CollapseNewlinesNoNewline(a[1..], false);
    }
  }

  lemma {:induction false} CollapseJoin(lines: seq<string>, afterNewline: bool)
    requires |lines| >= 1
    requires forall k :: 0 <= k < |lines| ==> '\n' !in lines[k]
    ensures CollapseNewlines(Join(lines, "\n"), afterNewline) == JoinCollapsed(lines, afterNewline)
  {
    if |lines| == 1 {
      CollapseNewlinesNoNewline(lines[0], afterNewline);
    } else {
      var rest := Join(lines[1..], "\n");
      assert CollapseNewlines(rest, true) == JoinCollapsed(lines[1..], true) by {
        CollapseJoin(lines[1..], true);
      }
      assert Join(lines, "\n") == lines[0] + ("\n" + rest);
      assert CollapseNewlines("\n" + rest, afterNewline)
             == (if afterNewline then [] else ['\n']) + CollapseNewlines(rest, true) by {
        assert ("\n" + rest)[1..] == rest;
      }
      var tail := CollapseNewlines(rest, true);
      if lines[0] != "" {
        CollapseNoNewline(lines[0], "\n" + rest, afterNewline);
        assert CollapseNewlines(Join(lines, "\n"), afterNewline) == lines[0] + ("\n" + tail);
        assert JoinCollapsed(lines, afterNewline) == lines[0] + "\n" + tail;
      } else if afterNewline {
        assert Join(lines, "\n") == "\n" + rest;
        assert JoinCollapsed(lines, afterNewline) == tail;
      } else {
        assert Join(lines, "\n") == "\n" + rest;
        assert JoinCollapsed(lines, afterNewline) == "\n" + tail;
      }
    }
  }

  /** A line with some character in it. */
  predicate NotBlank(line: string)
  {
    line != ""
  }

  /** When no line is kept by the filter, the last line is empty. */
  lemma {:induction false} BlankLast(lines: seq<string>)
    requires lines != [] && Filter(lines, NotBlank) == []
    ensures lines[|lines| - 1] == ""
    decreases |lines|
  {
    if |lines| > 1 {
      assert lines[0] == "";
      assert lines[1..][|lines| - 2] == lines[|lines| - 1];
      BlankLast(lines[1..]);
    }
  }

  /** Concatenation regroups freely. */
  lemma ConcatAssoc(a: string, b: string, c: string)
    ensures a + (b + c) == a + b + c
  {
  }

  /** With a run open, `JoinCollapsed` leaves the non-empty lines separated by
      one newline each, and one newline at the end when the last line is empty
      and some line is not. */
  lemma {:induction false} JoinCollapsedOpen(lines: seq<string>)
    requires |lines| >= 1
    ensures JoinCollapsed(lines, true) ==
              Join(Filter(lines, NotBlank), "\n")
              + (if lines[|lines| - 1] == "" && Filter(lines, NotBlank) != [] then "\n" else "")
    decreases |lines|
  {
    var kept := Filter(lines, NotBlank);
    var last := lines[|lines| - 1];
    if |lines| == 1 {
      assert lines[1..] == [];
      assert kept == if lines[0] == "" then [] else [lines[0]];
    } else {
      var rest := lines[1..];
      var keptRest := Filter(rest, NotBlank);
      var tail := JoinCollapsed(rest, true);
      assert rest[|rest| - 1] == last;
      var trailRest := if last == "" && keptRest != [] then "\n" else "";
      assert tail == Join(keptRest, "\n") + trailRest by {
        JoinCollapsedOpen(rest);
      }
      if lines[0] == "" {
        assert kept == keptRest;
        assert JoinCollapsed(lines, true) == tail;
      } else {
        assert kept == [lines[0]] + keptRest;
        assert JoinCollapsed(lines, true) == lines[0] + "\n" + tail;
        if keptRest == [] {
          assert last == "" by { BlankLast(rest); }
          assert Join(kept, "\n") == lines[0];
        } else {
          assert Join(kept, "\n") == lines[0] + "\n" + Join(keptRest, "\n") by {
            assert kept[1..] == keptRest;
          }
        }
      }
    }
  }

  /** The lines left by `JoinCollapsed` from the start of the text: as with a
      run open, and one newline more at the start when the first of several
      lines is empty. */
  lemma JoinCollapsedLines(lines: seq<string>)
    requires |lines| >= 1
    ensures JoinCollapsed(lines, false) ==
              (if |lines| > 1 && lines[0] == "" then "\n" else "")
              + Join(Filter(lines, NotBlank), "\n")
              + (if lines[|lines| - 1] == "" && Filter(lines, NotBlank) != [] then "\n" else "")
  {
    var lead := if |lines| > 1 && lines[0] == "" then "\n" else "";
    var joined := Join(Filter(lines, NotBlank), "\n");
    var trail := if lines[|lines| - 1] == "" && Filter(lines, NotBlank) != [] then "\n" else "";
    JoinCollapsedOpen(lines);
    JoinCollapsedStart(lines);
    ConcatAssoc(lead, joined, trail);
  }

  /** From the start of the text, `JoinCollapsed` differs from the open-run
      case only by the newline after an empty first line. */
  lemma JoinCollapsedStart(lines: seq<string>)
    requires |lines| >= 1
    ensures JoinCollapsed(lines, false) ==
              (if |lines| > 1 && lines[0] == "" then "\n" else "") + JoinCollapsed(lines, true)
  {
  }








  lemma {:induction false} JoinCollapsedShape(lines: seq<string>, afterNewline: bool)
    requires |lines| >= 1
    requires forall k :: 0 <= k < |lines| ==> '\n' !in lines[k] && SpacesTidy(lines[k])
    ensures var r := JoinCollapsed(lines, afterNewline);
            NoBlankLines(r) && SpacesTidy(r) && (afterNewline ==> r == [] || r[0] != '\n')
  {
    if |lines| > 1 {
      JoinCollapsedShape(lines[1..], true);
      var rest := JoinCollapsed(lines[1..], true);
      if !(afterNewline && lines[0] == "") {
        var r := lines[0] + "\n" + rest;
        assert SpacesTidy("\n");
        TidyConcat(lines[0], "\n");
        TidyConcat(lines[0] + "\n", rest);
        forall i | 0 <= i < |r| - 1 ensures !(r[i] == '\n' && r[i + 1] == '\n') {
          if i < |lines[0]| {
            assert r[i] == lines[0][i];
          } else if i == |lines[0]| {
            assert r[i + 1] == rest[0];
          } else {
            assert r[i] == rest[i - |lines[0]| - 1];
          }
        }
        if afterNewline && r != [] {
          assert r[0] == lines[0][0];
        }
      }
    }
  }

  /** `cleanString` returns `''` for `null` or `''`, never leaves two newlines in
      a row, leaves every line trimmed and with single spaces only, and never
      makes the string longer. */
  lemma {:induction false} CleanStringShape(content: Option<string>)
    ensures !Truthy(content) ==> CleanString(content) == ""
    ensures NoBlankLines(CleanString(content))
    ensures SpacesTidy(CleanString(content))
    ensures content.Some? ==> |CleanString(content)| <= |content.value|
    ensures '\t' !in CleanString(content) && '\r' !in CleanString(content)
  {
    if Truthy(content) {
      var s := ReplaceEscapes(content.value);
      var lines := SplitLines(s);
      var cleaned := MapCleanLine(lines);
      forall k | 0 <= k < |cleaned| ensures '\n' !in cleaned[k] && SpacesTidy(cleaned[k]) {
        CleanLineTidy(lines[k]);
      }
      CollapseJoin(cleaned, false);
      JoinCollapsedShape(cleaned, false);
      JoinSplit(s);
      JoinShorter(lines);
      var r := CleanString(content);
      assert IsHorizontalSpace('\t') && IsHorizontalSpace('\r');
      forall i | 0 <= i < |r| ensures r[i] != '\t' && r[i] != '\r' {
        assert IsHorizontalSpace(r[i]) ==> r[i] == ' ';
      }
    }
  }

  /** `cleanString` of truthy content, line by line: the cleaned lines joined
      by newlines, less each empty line that follows a newline. */
  lemma CleanStringLines(content: Option<string>)
    ensures Truthy(content) ==>
              CleanString(content) == JoinCollapsed(MapCleanLine(SplitLines(ReplaceEscapes(content.value))), false)
  {
    if Truthy(content) {
      var lines := SplitLines(ReplaceEscapes(content.value));
      var cleaned := MapCleanLine(lines);
      forall k | 0 <= k < |cleaned| ensures '\n' !in cleaned[k] {
        CleanLineTidy(lines[k]);
      }
      CollapseJoin(cleaned, false);
    }
  }

  /** Each line as its words separated by single spaces. */
  function SpacedLines(lines: seq<string>): (r: seq<string>)
    ensures |r| == |lines|
    ensures forall k :: 0 <= k < |r| ==> r[k] == Join(Words(lines[k]), " ")
  {
    seq(|lines|, k requires 0 <= k < |lines| => Join(Words(lines[k]), " "))
  }

  /** `cleanString` in words and lines: every line of the text becomes its words
      separated by single spaces, and the non-empty results are separated by one
      newline each. One newline stays at the start when the text has several
      lines and the first has no word, and one at the end when the last line
      has no word and some line has one. */
  lemma CleanStringWords(content: Option<string>)
    ensures Truthy(content) ==>
              var lines := SplitLines(ReplaceEscapes(content.value));
              var spaced := SpacedLines(lines);
              var kept := Filter(spaced, NotBlank);
              CleanString(content) ==
                (if |spaced| > 1 && spaced[0] == "" then "\n" else "")
                + Join(kept, "\n")
                + (if spaced[|spaced| - 1] == "" && kept != [] then "\n" else "")
  {
    if Truthy(content) {
      var lines := SplitLines(ReplaceEscapes(content.value));
      SpacedLinesClean(lines);
      CleanStringLines(content);
      JoinCollapsedLines(SpacedLines(lines));
    }
  }

  /** Spacing the words of each line is cleaning each line. */
  lemma SpacedLinesClean(lines: seq<string>)
    ensures SpacedLines(lines) == MapCleanLine(lines)
  {
    forall k | 0 <= k < |lines| ensures SpacedLines(lines)[k] == MapCleanLine(lines)[k] {
      CleanLineWords(lines[k]);
    }
  }


  lemma {:induction false} JoinShorter(lines: seq<string>)
    ensures |Join(MapCleanLine(lines), "\n")| <= |Join(lines, "\n")|
  {
    if |lines| > 1 {
      JoinShorter(lines[1..]);
      assert MapCleanLine(lines)[1..] == MapCleanLine(lines[1..]);
      CleanLineShorter(lines[0]);
    } else if |lines| == 1 {
      CleanLineShorter(lines[0]);
    }
  }

  lemma CleanLineShorter(line: string)
    ensures |CleanLine(line)| <= |line|
  {
  }
}
