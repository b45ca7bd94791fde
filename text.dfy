/** The few Python string operations the tools rely on: `str.strip()`,
    `str.split(sep)` for a one-character separator, and `str.startswith`. */
module Text {

  /** Python's `str.isspace()` for a single character: the ASCII whitespace
      characters, the information separators U+001C..U+001F, and the Unicode
      space and line/paragraph separator characters. */
  predicate IsSpace(c: char) {
    || c == ' '
    || ('\t' <= c <= '\r')
    || ('\U{1C}' <= c <= '\U{1F}')
    || c == '\U{85}' || c == '\U{A0}' || c == '\U{1680}'
    || ('\U{2000}' <= c <= '\U{200A}')
    || c == '\U{2028}' || c == '\U{2029}' || c == '\U{202F}'
    || c == '\U{205F}' || c == '\U{3000}'
  }

  predicate AllSpace(s: string) {
    forall i :: 0 <= i < |s| ==> IsSpace(s[i])
  }

  /** Neither the first nor the last character is whitespace. */
  predicate Trimmed(s: string) {
    s == [] || (!IsSpace(s[0]) && !IsSpace(s[|s| - 1]))
  }

  /** `s.strip()`: whitespace is removed from the front, then from the back,
      until neither end is whitespace. */
  function Trim(s: string): string
    decreases |s|
  {
    if |s| > 0 && IsSpace(s[0]) then Trim(s[1..])
    else if |s| > 0 && IsSpace(s[|s| - 1]) then Trim(s[..|s| - 1])
    else s
  }

  lemma AllSpaceConcat(a: string, b: string)
    requires AllSpace(a) && AllSpace(b)
    ensures AllSpace(a + b)
  {
    forall i | 0 <= i < |a + b| ensures IsSpace((a + b)[i]) {
      if i < |a| {
        assert (a + b)[i] == a[i];
      } else {
        assert (a + b)[i] == b[i - |a|];
      }
    }
  }

  /** Neither end of a stripped string is whitespace. */
  lemma {:induction false} TrimTrimmed(s: string)
    ensures Trimmed(Trim(s))
    decreases |s|
  {
    if |s| > 0 && IsSpace(s[0]) {
      TrimTrimmed(s[1..]);
    } else if |s| > 0 && IsSpace(s[|s| - 1]) {
      TrimTrimmed(s[..|s| - 1]);
    }
  }

  /** Whitespace around a slice of s[1..] stays around the same slice of
      `s` when s[0] is whitespace. */
  lemma SliceAfterFirst(s: string, a: nat, b: nat)
    requires |s| > 0 && IsSpace(s[0]) && a <= b <= |s| - 1
    requires AllSpace(s[1..][..a]) && AllSpace(s[1..][b..])
    ensures s[1..][a..b] == s[a + 1..b + 1]
    ensures AllSpace(s[..a + 1]) && AllSpace(s[b + 1..])
  {
    assert s[..a + 1] == [s[0]] + s[1..][..a];
    AllSpaceConcat([s[0]], s[1..][..a]);
    assert s[b + 1..] == s[1..][b..];
  }

  /** Whitespace around a slice of `s` without its last character stays
      around the same slice of `s` when that character is whitespace. */
  lemma SliceBeforeLast(s: string, a: nat, b: nat)
    requires |s| > 0 && IsSpace(s[|s| - 1]) && a <= b <= |s| - 1
    requires AllSpace(s[..|s| - 1][..a]) && AllSpace(s[..|s| - 1][b..])
    ensures s[..|s| - 1][a..b] == s[a..b]
    ensures AllSpace(s[..a]) && AllSpace(s[b..])
  {
    var rest := s[..|s| - 1];
    assert s[..a] == rest[..a];
    assert s[b..] == rest[b..] + [s[|s| - 1]];
    AllSpaceConcat(rest[b..], [s[|s| - 1]]);
  }

  /** What stripping leaves is the middle s[a..b] of `s`, with whitespace
      only before and after it and none at its own ends. */
  lemma {:induction false} TrimSlice(s: string) returns (a: nat, b: nat)
    ensures a <= b <= |s| && Trim(s) == s[a..b]
    ensures AllSpace(s[..a]) && AllSpace(s[b..])
    ensures Trimmed(Trim(s))
    decreases |s|
  {
    TrimTrimmed(s);
    if |s| > 0 && IsSpace(s[0]) {
      var a', b' := TrimSlice(s[1..]);
      SliceAfterFirst(s, a', b');
      a, b := a' + 1, b' + 1;
    } else if |s| > 0 && IsSpace(s[|s| - 1]) {
      a, b := TrimSlice(s[..|s| - 1]);
      SliceBeforeLast(s, a, b);
    } else {
      a, b := 0, |s|;
      assert s[a..b] == s;
    }
  }

  /** Stripping leaves nothing exactly when the string is all whitespace. */
  lemma {:induction false} TrimEmpty(s: string)
    ensures Trim(s) == [] <==> AllSpace(s)
  {
    var a, b := TrimSlice(s);
    if Trim(s) == [] {
      assert s == s[..a] + s[b..];
    }
  }

  /** A string with no whitespace at either end is left unchanged. */
  lemma TrimIdentity(s: string)
    requires Trimmed(s)
    ensures Trim(s) == s
  {
  }

  /** Stripping removes exactly the surrounding whitespace: a string that
      has no outer whitespace of its own comes back unchanged from any
      amount of padding. */
  lemma {:induction false} TrimPadded(pre: string, t: string, post: string)
    requires AllSpace(pre) && AllSpace(post) && Trimmed(t)
    ensures Trim(pre + t + post) == t
    decreases |pre| + |post|
  {
    var s := pre + t + post;
    if pre != [] {
      assert s[0] == pre[0] && s[1..] == pre[1..] + t + post;
      TrimPadded(pre[1..], t, post);
    } else if t == [] && post != [] {
      assert s == post && s[1..] == [] + t + post[1..];
      TrimPadded([], t, post[1..]);
    } else if post != [] {
      var p := post[..|post| - 1];
      assert s[0] == t[0] && s[|s| - 1] == post[|post| - 1];
      assert s[..|s| - 1] == pre + t + p;
      TrimPadded(pre, t, p);
    } else {
      assert s == t;
      TrimIdentity(t);
    }
  }

  /** `s.strip()` is idempotent. */
  lemma {:induction false} TrimIdempotent(s: string)
    ensures Trim(Trim(s)) == Trim(s)
  {
    var a, b := TrimSlice(s);
    TrimIdentity(Trim(s));
  }

  /** Number of occurrences of `c` in `s`. */
  function Count(s: string, c: char): nat {
    if s == [] then 0 else (if s[0] == c then 1 else 0) + Count(s[1..], c)
  }

  /** Python's `s.split(sep)` for a one-character separator: the pieces
      between separators, including empty ones; never an empty list. */
  function Split(s: string, sep: char): (r: seq<string>)
    ensures |r| == Count(s, sep) + 1
    ensures forall i :: 0 <= i < |r| ==> sep !in r[i]
    decreases |s|
  {
    if s == [] then [[]]
    else
      var rest := Split(s[1..], sep);
      if s[0] == sep then [[]] + rest
      else [[s[0]] + rest[0]] + rest[1..]
  }

  /** Python's `sep.join(parts)`. */
  function Join(parts: seq<string>, sep: char): string
    decreases |parts|
  {
    if parts == [] then []
    else if |parts| == 1 then parts[0]
    else parts[0] + [sep] + Join(parts[1..], sep)
  }

  /** Joining the pieces of a split gives back the original string. */
  lemma {:induction false} JoinSplit(s: string, sep: char)
    ensures Join(Split(s, sep), sep) == s
    decreases |s|
  {
    if s != [] {
      var rest := Split(s[1..], sep);
      JoinSplit(s[1..], sep);
      if s[0] == sep {
        assert Split(s, sep) == [[]] + rest;
        assert ([[]] + rest)[1..] == rest;
        assert Join(Split(s, sep), sep) == [] + [sep] + Join(rest, sep);
        assert s == [s[0]] + s[1..];
      } else {
        var parts := [[s[0]] + rest[0]] + rest[1..];
        assert Split(s, sep) == parts;
        if |rest| == 1 {
          assert rest == [rest[0]];
          assert Join(parts, sep) == [s[0]] + rest[0];
          assert s == [s[0]] + s[1..];
        } else {
          assert parts[1..] == rest[1..];
          assert Join(rest, sep) == rest[0] + [sep] + Join(rest[1..], sep);
          assert Join(parts, sep) == [s[0]] + rest[0] + [sep] + Join(rest[1..], sep);
          assert s == [s[0]] + s[1..];
        }
      }
    }
  }

  /** Splitting a joined list gives back the list, provided no part contains
      the separator (the other direction of JoinSplit). */
  lemma {:induction false} SplitJoin(parts: seq<string>, sep: char)
    requires |parts| > 0
    requires forall i :: 0 <= i < |parts| ==> sep !in parts[i]
    ensures Split(Join(parts, sep), sep) == parts
    decreases |parts|, |parts[0]|
  {
    var p := parts[0];
    if |parts| == 1 {
      SplitNoSeparator(p, sep);
    } else if p == [] {
      var tail := Join(parts[1..], sep);
      assert Join(parts, sep) == [sep] + tail;
      assert ([sep] + tail)[1..] == tail;
      SplitJoin(parts[1..], sep);
      assert parts == [[]] + parts[1..];
    } else {
      var smaller := [p[1..]] + parts[1..];
      assert smaller[1..] == parts[1..];
      assert forall i :: 0 <= i < |smaller| ==> sep !in smaller[i] by {
        forall i | 0 <= i < |smaller| ensures sep !in smaller[i] {
          if i == 0 {
            assert forall k :: 0 <= k < |p[1..]| ==> p[1..][k] == p[k + 1];
          } else {
            assert smaller[i] == parts[i];
          }
        }
      }
      SplitJoin(smaller, sep);
      var j := Join(parts, sep);
      assert j == p + [sep] + Join(parts[1..], sep);
      assert j[0] == p[0] && p[0] != sep;
      assert j[1..] == Join(smaller, sep);
      assert [p[0]] + p[1..] == p;
      assert parts == [[p[0]] + smaller[0]] + smaller[1..];
    }
  }

  lemma {:induction false} SplitNoSeparator(s: string, sep: char)
    requires sep !in s
    ensures Split(s, sep) == [s]
    decreases |s|
  {
    if s != [] {
      assert sep !in s[1..] by {
        assert forall k :: 0 <= k < |s[1..]| ==> s[1..][k] == s[k + 1];
      }
      SplitNoSeparator(s[1..], sep);
      assert [s[0]] + s[1..] == s;
    }
  }

  /** Python's `s.startswith(prefix)`. */
  predicate StartsWith(s: string, prefix: string) {
    |prefix| <= |s| && s[..|prefix|] == prefix
  }
}
