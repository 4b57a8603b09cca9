/**
 * The pieces of Rust's `str` the level loader relies on: `split` on a character,
 * `split_terminator`, `trim` and `starts_with`, over strings as character sequences.
 */
module Strings {

  /**
   * Rust's `char::is_whitespace`: the characters with the Unicode White_Space property,
   * U+0009 to U+000D, U+0020, U+0085, U+00A0, U+1680, U+2000 to U+200A, U+2028, U+2029,
   * U+202F, U+205F and U+3000.
   */
  predicate IsWhitespace(c: char)
  {
    || ('\U{9}' <= c <= '\U{D}')
    || c == ' '
    || c == '\U{85}'
    || c == '\U{A0}'
    || c == '\U{1680}'
    || ('\U{2000}' <= c <= '\U{200A}')
    || c == '\U{2028}'
    || c == '\U{2029}'
    || c == '\U{202F}'
    || c == '\U{205F}'
    || c == '\U{3000}'
  }

  predicate NoWhitespace(s: string)
  {
    forall i :: 0 <= i < |s| ==> !IsWhitespace(s[i])
  }

  /** The pieces joined back together, `sep` between neighbours: `[T]::join`. */
  function Join(parts: seq<string>, sep: char): string
    requires |parts| != 0
  {
    if |parts| == 1 then parts[0] else parts[0] + [sep] + Join(parts[1..], sep)
  }

  /**
   * `str::split(sep)`: the maximal runs between separators, always at least one, and
   * empty runs kept. Joining them back gives the string.
   */
  function Split(s: string, sep: char): (parts: seq<string>)
    ensures |parts| != 0
    ensures forall k :: 0 <= k < |parts| ==> sep !in parts[k]
    ensures Join(parts, sep) == s
  {
    if |s| == 0 then [""]
    else
      var rest := Split(s[1..], sep);
      if s[0] == sep then
        assert Join([""] + rest, sep) == [sep] + Join(rest, sep) by {
          assert ([""] + rest)[1..] == rest;
        }
        [""] + rest
      else
        var parts := [[s[0]] + rest[0]] + rest[1..];
        assert Join(parts, sep) == s by {
          if |rest| == 1 {
            assert parts == [[s[0]] + rest[0]];
          } else {
            assert parts[1..] == rest[1..];
            assert Join(rest, sep) == rest[0] + [sep] + Join(rest[1..], sep);
          }
        }
        parts
  }

  /**
   * Splitting a join gives the pieces back, provided no piece contains the separator:
   * `Split` and `Join` are inverse.
   */
  lemma {:induction false} SplitJoin(parts: seq<string>, sep: char)
    requires |parts| != 0
    requires forall k :: 0 <= k < |parts| ==> sep !in parts[k]
    ensures Split(Join(parts, sep), sep) == parts
    decreases |parts|, |parts[0]|
  {
    var p := parts[0];
    if |p| == 0 {
      if |parts| == 1 {
        assert Join(parts, sep) == "";
      } else {
        var tail := Join(parts[1..], sep);
        assert Join(parts, sep) == [sep] + tail;
        assert ([sep] + tail)[1..] == tail;
        SplitJoin(parts[1..], sep);
        assert parts == [""] + parts[1..];
      }
    } else {
      var shorter := [p[1..]] + parts[1..];
      assert shorter[1..] == parts[1..];
      assert forall k :: 0 <= k < |shorter| ==> sep !in shorter[k] by {
        forall k | 0 <= k < |shorter| ensures sep !in shorter[k] {
          if k == 0 {
            assert forall c :: c in p[1..] ==> c in p;
          } else {
            assert shorter[k] == parts[k];
          }
        }
      }
      SplitJoin(shorter, sep);
      var s := Join(parts, sep);
      assert s == [p[0]] + Join(shorter, sep) by {
        if |parts| == 1 {
          assert p == [p[0]] + p[1..];
        } else {
          assert p == [p[0]] + p[1..];
          assert s == p + [sep] + Join(parts[1..], sep);
          assert Join(shorter, sep) == p[1..] + [sep] + Join(parts[1..], sep);
        }
      }
      assert s[0] == p[0] && s[1..] == Join(shorter, sep);
      assert s[0] != sep by { assert p[0] in p; }
      assert [p[0]] + shorter[0] == p by { assert shorter[0] == p[1..]; }
      assert parts == [p] + parts[1..];
    }
  }

  /** Splitting text that starts with a separator-free word and a separator. */
  lemma {:induction false} SplitFirst(w: string, rest: string, sep: char)
    requires sep !in w
    ensures Split(w + [sep] + rest, sep) == [w] + Split(rest, sep)
  {
    var s := w + [sep] + rest;
    if |w| == 0 {
      assert s[1..] == rest;
    } else {
      assert s[1..] == w[1..] + [sep] + rest;
      assert sep !in w[1..] by { assert forall c :: c in w[1..] ==> c in w; }
      SplitFirst(w[1..], rest, sep);
      assert w[0] in w;
      assert [w[0]] + w[1..] == w;
    }
  }

  /** The first and last characters of a join are those of the first and last pieces. */
  lemma {:induction false} JoinEnds(parts: seq<string>, sep: char)
    requires |parts| != 0 && |parts[0]| != 0 && |parts[|parts| - 1]| != 0
    ensures |Join(parts, sep)| != 0
    ensures Join(parts, sep)[0] == parts[0][0]
    ensures Join(parts, sep)[|Join(parts, sep)| - 1] == parts[|parts| - 1][|parts[|parts| - 1]| - 1]
  {
    JoinLast(parts, sep);
  }

  lemma {:induction false} JoinLast(parts: seq<string>, sep: char)
    requires |parts| != 0 && |parts[|parts| - 1]| != 0
    ensures |Join(parts, sep)| != 0
    ensures Join(parts, sep)[|Join(parts, sep)| - 1] == parts[|parts| - 1][|parts[|parts| - 1]| - 1]
  {
    if |parts| != 1 {
      JoinLast(parts[1..], sep);
    }
  }

  /** A character that is neither the separator nor in any piece is not in their join. */
  lemma {:induction false} JoinAvoids(parts: seq<string>, sep: char, c: char)
    requires |parts| != 0 && c != sep
    requires forall k :: 0 <= k < |parts| ==> c !in parts[k]
    ensures c !in Join(parts, sep)
  {
    if |parts| != 1 {
      JoinAvoids(parts[1..], sep, c);
      assert parts[0] + [sep] + Join(parts[1..], sep) == Join(parts, sep);
    }
  }

  /**
   * `str::split_terminator(sep)`: `split`, but a final empty piece is dropped, so a
   * terminated last line does not give an extra empty line and the empty string has no
   * lines at all.
   */
  function SplitTerminator(s: string, sep: char): (lines: seq<string>)
    ensures forall k :: 0 <= k < |lines| ==> sep !in lines[k]
    ensures |s| == 0 ==> lines == []
  {
    var parts := Split(s, sep);
    if parts[|parts| - 1] == "" then parts[..|parts| - 1] else parts
  }

  /** Every line followed by the terminator: the text a writer of lines produces. */
  function Terminated(lines: seq<string>, sep: char): string
  {
    if |lines| == 0 then "" else lines[0] + [sep] + Terminated(lines[1..], sep)
  }

  /** A terminated text is the join of its lines and one empty piece after them. */
  lemma {:induction false} TerminatedIsJoin(lines: seq<string>, sep: char)
    ensures Terminated(lines, sep) == Join(lines + [""], sep)
  {
    if |lines| != 0 {
      TerminatedIsJoin(lines[1..], sep);
      assert (lines + [""])[1..] == lines[1..] + [""];
    }
  }

  /**
   * Cutting a terminated text into lines gives the lines back, provided no line contains
   * the terminator.
   */
  lemma SplitTerminatorTerminated(lines: seq<string>, sep: char)
    requires forall k :: 0 <= k < |lines| ==> sep !in lines[k]
    ensures SplitTerminator(Terminated(lines, sep), sep) == lines
  {
    TerminatedIsJoin(lines, sep);
    SplitJoin(lines + [""], sep);
    assert (lines + [""])[..|lines|] == lines;
  }

  /** `str::trim_start`: the string without its leading whitespace. */
  function TrimStart(s: string): (t: string)
    ensures |t| <= |s| && t == s[|s| - |t|..]
    ensures forall i :: 0 <= i < |s| - |t| ==> IsWhitespace(s[i])
    ensures |t| != 0 ==> !IsWhitespace(t[0])
  {
    if |s| != 0 && IsWhitespace(s[0]) then TrimStart(s[1..]) else s
  }

  /** `str::trim_end`: the string without its trailing whitespace. */
  function TrimEnd(s: string): (t: string)
    ensures |t| <= |s| && t == s[..|t|]
    ensures forall i :: |t| <= i < |s| ==> IsWhitespace(s[i])
    ensures |t| != 0 ==> !IsWhitespace(t[|t| - 1])
  {
    if |s| != 0 && IsWhitespace(s[|s| - 1]) then TrimEnd(s[..|s| - 1]) else s
  }

  /** The number of whitespace characters `s` starts with. */
  function Leading(s: string): (n: nat)
    ensures n <= |s|
    ensures forall k :: 0 <= k < n ==> IsWhitespace(s[k])
    ensures n < |s| ==> !IsWhitespace(s[n])
  {
    if |s| != 0 && IsWhitespace(s[0]) then 1 + Leading(s[1..]) else 0
  }

  /**
   * `str::trim`: the string without its leading and trailing whitespace. The result
   * neither starts nor ends with whitespace; `TrimRemovesOnlyWhitespace` states that
   * nothing else was removed.
   */
  function Trim(s: string): (t: string)
    ensures |t| != 0 ==> !IsWhitespace(t[0]) && !IsWhitespace(t[|t| - 1])
  {
    TrimEnds(s);
    TrimEnd(TrimStart(s))
  }

  lemma TrimEnds(s: string)
    ensures var t := TrimEnd(TrimStart(s));
      |t| != 0 ==> !IsWhitespace(t[0]) && !IsWhitespace(t[|t| - 1])
  {
    var a := TrimStart(s);
    var t := TrimEnd(a);
    if |t| != 0 {
      assert t == a[..|t|];
      assert t[0] == a[0];
    }
  }

  /**
   * The trimmed string is the contiguous middle of `s` that starts after the leading
   * whitespace, and everything after it is whitespace.
   */
  lemma TrimRemovesOnlyWhitespace(s: string)
    ensures var t := Trim(s);
      && Leading(s) + |t| <= |s| && t == s[Leading(s)..Leading(s) + |t|]
      && (forall k :: Leading(s) + |t| <= k < |s| ==> IsWhitespace(s[k]))
  {
    TrimStartDrops(s);
    TrimEndTail(s, Leading(s), TrimStart(s));
  }

  /** What `TrimEnd` removes from a suffix `a` of `s` is whitespace of `s`. */
  lemma TrimEndTail(s: string, i: nat, a: string)
    requires i <= |s| && a == s[i..]
    ensures var t := TrimEnd(a);
      && i + |t| <= |s| && t == s[i..i + |t|]
      && forall k :: i + |t| <= k < |s| ==> IsWhitespace(s[k])
  {
    var t := TrimEnd(a);
    forall k | i + |t| <= k < |s| ensures IsWhitespace(s[k]) {
      assert s[k] == a[k - i];
    }
  }

  /** `TrimStart` drops exactly the leading whitespace. */
  lemma {:induction false} TrimStartDrops(s: string)
    ensures TrimStart(s) == s[Leading(s)..]
  {
    if |s| != 0 && IsWhitespace(s[0]) {
      TrimStartDrops(s[1..]);
      assert s[1..][Leading(s[1..])..] == s[1 + Leading(s[1..])..];
    }
  }

  /** A string that neither starts nor ends with whitespace is its own trim. */
  lemma TrimClean(s: string)
    requires |s| != 0 ==> !IsWhitespace(s[0]) && !IsWhitespace(s[|s| - 1])
    ensures Trim(s) == s
  {
  }

  /** `str::starts_with`. */
  predicate StartsWith(s: string, prefix: string)
  {
    |prefix| <= |s| && s[..|prefix|] == prefix
  }
}
