/** The JavaScript string operations the pipeline relies on, restricted to
    ASCII: `toLowerCase`, `trim`, `split(/\s+/)`, `includes` and `join`. */
module Text {

  /** A character matched by `\s` and stripped by `trim` (ASCII part only:
      space, tab, line feed, carriage return, vertical tab, form feed). */
  predicate IsSpace(c: char) {
    c == ' ' || c == '\t' || c == '\n' || c == '\r' || c == '\U{B}' || c == '\U{C}'
  }

  predicate AllSpace(s: string) {
    forall i :: 0 <= i < |s| ==> IsSpace(s[i])
  }

  predicate NoSpace(s: string) {
    forall i :: 0 <= i < |s| ==> !IsSpace(s[i])
  }

  /** Neither starts nor ends with whitespace: what `trim` leaves behind. */
  predicate Stripped(s: string) {
    s == [] || (!IsSpace(s[0]) && !IsSpace(s[|s| - 1]))
  }

  function LowerChar(c: char): char {
    if 'A' <= c <= 'Z' then (c as int + 32) as char else c
  }

  /** `s.toLowerCase()` on ASCII letters; every other character is kept. */
  function Lower(s: string): (r: string)
    ensures |r| == |s|
    ensures forall i :: 0 <= i < |s| ==> r[i] == LowerChar(s[i])
  {
    if s == [] then [] else [LowerChar(s[0])] + Lower(s[1..])
  }

  lemma LowerAppend(a: string, b: string)
    ensures Lower(a + b) == Lower(a) + Lower(b)
  {
    assert Lower(a + b) == Lower(a) + Lower(b) by {
      forall i | 0 <= i < |a + b|
        ensures Lower(a + b)[i] == (Lower(a) + Lower(b))[i]
      {
      }
    }
  }

  /** Lower-casing never creates or removes whitespace. */
  lemma LowerKeepsSpaces(s: string)
    ensures AllSpace(s) ==> AllSpace(Lower(s))
    ensures Stripped(s) ==> Stripped(Lower(s))
  {
  }

  /** `s.trimStart()` */
  function TrimStart(s: string): (r: string)
    ensures |r| <= |s|
    ensures r == [] || !IsSpace(r[0])
  {
    if |s| > 0 && IsSpace(s[0]) then TrimStart(s[1..]) else s
  }

  /** `trimStart` only drops characters from the front, and only whitespace. */
  lemma {:induction false} TrimStartIsSuffix(s: string)
    ensures TrimStart(s) == s[|s| - |TrimStart(s)|..]
    ensures AllSpace(s[..|s| - |TrimStart(s)|])
  {
    if |s| > 0 && IsSpace(s[0]) {
      TrimStartIsSuffix(s[1..]);
      var k := |s| - |TrimStart(s)|;
      assert s[1..][k - 1..] == s[k..];
      assert forall i :: 1 <= i < k ==> s[..k][i] == s[1..][..k - 1][i - 1];
    }
  }

  /** `s.trimEnd()` */
  function TrimEnd(s: string): (r: string)
    ensures |r| <= |s|
    ensures r == [] || !IsSpace(r[|r| - 1])
  {
    if |s| > 0 && IsSpace(s[|s| - 1]) then TrimEnd(s[..|s| - 1]) else s
  }

  /** `trimEnd` only drops characters from the back, and only whitespace. */
  lemma {:induction false} TrimEndIsPrefix(s: string)
    ensures TrimEnd(s) == s[..|TrimEnd(s)|]
    ensures AllSpace(s[|TrimEnd(s)|..])
  {
    if |s| > 0 && IsSpace(s[|s| - 1]) {
      var t := s[..|s| - 1];
      TrimEndIsPrefix(t);
      var k := |TrimEnd(s)|;
      assert t[..k] == s[..k];
      assert forall i :: 0 <= i < |s| - 1 - k ==> s[k..][i] == t[k..][i];
    }
  }

  /** `s.trim()` */
  function Trim(s: string): (r: string)
    ensures |r| <= |s|
    ensures Stripped(r)
  {
    var t := TrimStart(s);
    var r := TrimEnd(t);
    TrimEndIsPrefix(t);
    assert r != [] ==> r[0] == t[0];
    r
  }

  lemma {:induction false} TrimStartSkipsPadding(pad: string, rest: string)
    requires AllSpace(pad)
    requires rest == [] || !IsSpace(rest[0])
    ensures TrimStart(pad + rest) == rest
  {
    if pad != [] {
      assert (pad + rest)[1..] == pad[1..] + rest;
      TrimStartSkipsPadding(pad[1..], rest);
    }
  }

  lemma {:induction false} TrimEndSkipsPadding(rest: string, pad: string)
    requires AllSpace(pad)
    requires rest == [] || !IsSpace(rest[|rest| - 1])
    ensures TrimEnd(rest + pad) == rest
  {
    if pad != [] {
      var shorter := pad[..|pad| - 1];
      assert (rest + pad)[..|rest + pad| - 1] == rest + shorter;
      TrimEndSkipsPadding(rest, shorter);
    }
  }

  /** `trim` removes exactly the surrounding whitespace: together with the
      postcondition of Trim this characterises it completely. */
  lemma TrimPadded(before: string, s: string, after: string)
    requires AllSpace(before) && AllSpace(after) && Stripped(s)
    ensures Trim(before + s + after) == s
  {
    if s == [] {
      assert before + s + after == before + after;
      TrimStartSkipsPadding(before + after, []);
      assert before + after + [] == before + after;
    } else {
      assert before + s + after == before + (s + after);
      TrimStartSkipsPadding(before, s + after);
      TrimEndSkipsPadding(s, after);
    }
  }

  /** The splitting loop of `s.split(/\s+/)`: `current` is the token read so
      far; a run of whitespace ends it and is skipped as a whole. */
  function SplitFrom(s: string, current: string): (r: seq<string>)
    ensures |r| >= 1
    decreases |s|
  {
    if s == [] then [current]
    else if IsSpace(s[0]) then [current] + SplitFrom(TrimStart(s[1..]), "")
    else SplitFrom(s[1..], current + [s[0]])
  }

  /** `s.split(/\s+/)`: never empty; `""` splits into `[""]`. */
  function Split(s: string): seq<string> {
    SplitFrom(s, "")
  }

  lemma {:induction false} SplitFromTokensHaveNoSpace(s: string, current: string)
    requires NoSpace(current)
    ensures forall t :: t in SplitFrom(s, current) ==> NoSpace(t)
    decreases |s|
  {
    if s == [] {
    } else if IsSpace(s[0]) {
      SplitFromTokensHaveNoSpace(TrimStart(s[1..]), "");
    } else {
      SplitFromTokensHaveNoSpace(s[1..], current + [s[0]]);
    }
  }

  /** No token of a split contains whitespace. */
  lemma SplitTokensHaveNoSpace(s: string)
    ensures forall t :: t in Split(s) ==> NoSpace(t)
  {
    SplitFromTokensHaveNoSpace(s, "");
  }

  lemma {:induction false} SplitFromWord(word: string, rest: string, current: string)
    requires NoSpace(word)
    ensures SplitFrom(word + rest, current) == SplitFrom(rest, current + word)
    decreases |word|
  {
    if word == [] {
      assert word + rest == rest;
      assert current + word == current;
    } else {
      assert (word + rest)[0] == word[0];
      assert (word + rest)[1..] == word[1..] + rest;
      SplitFromWord(word[1..], rest, current + [word[0]]);
      assert current + [word[0]] + word[1..] == current + word;
    }
  }

  /** `parts.join(sep)` */
  function Join(parts: seq<string>, sep: string): string {
    if |parts| == 0 then ""
    else if |parts| == 1 then parts[0]
    else parts[0] + sep + Join(parts[1..], sep)
  }

  /** Splitting undoes joining with single spaces whenever the words are
      non-empty and free of whitespace. */
  lemma {:induction false} SplitJoin(words: seq<string>)
    requires |words| >= 1
    requires forall i :: 0 <= i < |words| ==> words[i] != [] && NoSpace(words[i])
    ensures Split(Join(words, " ")) == words
  {
    var w := words[0];
    if |words| == 1 {
      assert w + [] == w;
      SplitFromWord(w, [], "");
      assert "" + w == w;
    } else {
      var rest := Join(words[1..], " ");
      SplitJoin(words[1..]);
      assert rest != [] && !IsSpace(rest[0]) by {
        JoinStartsWithFirst(words[1..], " ");
      }
      assert Join(words, " ") == w + (" " + rest);
      SplitFromWord(w, " " + rest, "");
      assert "" + w == w;
      assert (" " + rest)[1..] == rest;
      TrimStartSkipsPadding([], rest);
      assert [] + rest == rest;
    }
  }

  lemma {:induction false} JoinStartsWithFirst(parts: seq<string>, sep: string)
    requires |parts| >= 1
    ensures |Join(parts, sep)| >= |parts[0]|
    ensures Join(parts, sep)[..|parts[0]|] == parts[0]
  {
    if |parts| > 1 {
      assert Join(parts, sep) == parts[0] + (sep + Join(parts[1..], sep));
    }
  }

  predicate StartsWith(s: string, prefix: string) {
    |prefix| <= |s| && s[..|prefix|] == prefix
  }

  /** `s.includes(part)`: some position of `s` starts with `part`. */
  predicate Includes(s: string, part: string)
    decreases |s|
  {
    StartsWith(s, part) || (|s| > 0 && Includes(s[1..], part))
  }

  /** `part` occurs in `s` starting at index `i`. */
  predicate OccursAt(s: string, part: string, i: int) {
    0 <= i <= |s| - |part| && s[i..i + |part|] == part
  }

  /** The recursive definition of `includes` agrees with the usual
      "occurs at some index" definition. */
  lemma {:induction false} IncludesIff(s: string, part: string)
    ensures Includes(s, part) <==> exists i :: OccursAt(s, part, i)
    decreases |s|
  {
    if StartsWith(s, part) {
      assert OccursAt(s, part, 0);
    } else if |s| == 0 {
      assert forall i :: !OccursAt(s, part, i);
    } else {
      IncludesIff(s[1..], part);
      if Includes(s[1..], part) {
        var j :| OccursAt(s[1..], part, j);
        SliceOfTail(s, j + 1, |part|);
        assert OccursAt(s, part, j + 1);
      } else {
        forall i | OccursAt(s, part, i)
          ensures false
        {
          if i > 0 {
            SliceOfTail(s, i, |part|);
            assert OccursAt(s[1..], part, i - 1);
          }
        }
      }
    }
  }

  lemma SliceOfTail(s: string, i: int, n: int)
    requires 1 <= i && 0 <= n && i + n <= |s|
    ensures s[1..][i - 1..i - 1 + n] == s[i..i + n]
  {
    var a, b := s[1..][i - 1..i - 1 + n], s[i..i + n];
    assert forall k :: 0 <= k < n ==> a[k] == b[k];
  }
}
