/** The handful of Python string operations the range engine relies on:
    `str.split(',')`, `str.strip()`, `sep.join(xs)` and
    `str.replace(old, new)`, each modelled on `seq<char>` with the exact
    Python semantics the engine sees. */
module Text {

  /** The characters Python's `str.isspace()` accepts, i.e. the ones that
      `str.strip()` with no argument removes. */
  predicate IsSpace(c: char) {
    || c == ' ' || c == '\t' || c == '\n' || c == '\r'
    || c == 11 as char || c == 12 as char
    || (28 <= c as int <= 31)
    || c == 0x85 as char || c == 0xA0 as char || c == 0x1680 as char
    || (0x2000 <= c as int <= 0x200A)
    || c == 0x2028 as char || c == 0x2029 as char || c == 0x202F as char
    || c == 0x205F as char || c == 0x3000 as char
  }

  /** `s.lstrip()`: the longest suffix of `s` that does not start with white space. */
  function StripLeft(s: string): (r: string)
    ensures |r| <= |s| && r == s[|s| - |r|..]
    ensures r == [] || !IsSpace(r[0])
    ensures forall i :: 0 <= i < |s| - |r| ==> IsSpace(s[i])
  {
    if s != [] && IsSpace(s[0]) then StripLeft(s[1..]) else s
  }

  /** `s.rstrip()`: the longest prefix of `s` that does not end with white space. */
  function StripRight(s: string): (r: string)
    ensures |r| <= |s| && r == s[..|r|]
    ensures r == [] || !IsSpace(r[|r| - 1])
    ensures forall i :: |r| <= i < |s| ==> IsSpace(s[i])
  {
    if s != [] && IsSpace(s[|s| - 1]) then StripRight(s[..|s| - 1]) else s
  }

  /** `s.strip()`. */
  function Strip(s: string): string {
    StripRight(StripLeft(s))
  }

  /** A string with no white space at either end is its own `strip()`, and
      white space in front of it is what `strip()` removes. */
  lemma {:induction false} StripPadded(pad: string, s: string)
    requires forall i :: 0 <= i < |pad| ==> IsSpace(pad[i])
    requires s != [] && !IsSpace(s[0]) && !IsSpace(s[|s| - 1])
    ensures Strip(pad + s) == s
  {
    if pad == [] {
      assert pad + s == s;
    } else {
      assert (pad + s)[1..] == pad[1..] + s;
      StripPadded(pad[1..], s);
    }
  }

  /** One more blank in front does not change `strip()`. */
  lemma StripSpaceFront(w: char, s: string)
    requires IsSpace(w)
    ensures Strip([w] + s) == Strip(s)
  {
    assert ([w] + s)[1..] == s;
  }

  /** `sep.join(parts)`. */
  function Join(parts: seq<string>, sep: string): string {
    if parts == [] then []
    else if |parts| == 1 then parts[0]
    else parts[0] + sep + Join(parts[1..], sep)
  }

  /** `s.split(sep)` for a one-character separator: the pieces between
      separators, one more piece than there are separators. */
  function Split(s: string, sep: char): (parts: seq<string>)
    ensures |parts| >= 1
    ensures forall k :: 0 <= k < |parts| ==> sep !in parts[k]
  {
    if s == [] then [[]]
    else
      var rest := Split(s[1..], sep);
      if s[0] == sep then [[]] + rest
      else [[s[0]] + rest[0]] + rest[1..]
  }

  /** Joining the pieces with the separator gives back the text: with
      `SplitJoin`, splitting and joining are mutually inverse. */
  lemma {:induction false} JoinSplit(s: string, sep: char)
    ensures Join(Split(s, sep), [sep]) == s
  {
    if s != [] {
      JoinSplit(s[1..], sep);
      var rest := Split(s[1..], sep);
      var p := Split(s, sep);
      if s[0] == sep {
        assert p == [[]] + rest && p[1..] == rest;
        assert Join(p, [sep]) == [] + [sep] + Join(rest, [sep]);
        assert s == [s[0]] + s[1..];
      } else {
        assert s == [s[0]] + s[1..];
        if |rest| == 1 {
          assert Split(s, sep) == [[s[0]] + rest[0]];
        } else {
          assert p[0] == [s[0]] + rest[0] && p[1..] == rest[1..];
          assert Join(p, [sep]) == p[0] + [sep] + Join(p[1..], [sep]);
          assert Join(rest, [sep]) == rest[0] + [sep] + Join(rest[1..], [sep]);
        }
      }
    }
  }

  /** Splitting undoes joining, as long as no piece holds the separator. */
  lemma {:induction false} SplitJoin(parts: seq<string>, sep: char)
    requires |parts| >= 1
    requires forall k :: 0 <= k < |parts| ==> sep !in parts[k]
    ensures Split(Join(parts, [sep]), sep) == parts
  {
    if |parts| == 1 {
      SplitNoSep(parts[0], sep);
    } else {
      SplitJoin(parts[1..], sep);
      var tail := Join(parts[1..], [sep]);
      SplitPrefix(parts[0], tail, sep);
    }
  }

  /** A string without the separator splits into itself alone. */
  lemma {:induction false} SplitNoSep(s: string, sep: char)
    requires sep !in s
    ensures Split(s, sep) == [s]
  {
    if s != [] {
      SplitNoSep(s[1..], sep);
      assert s == [s[0]] + s[1..];
    }
  }

  /** Splitting `a + sep + b`, for `a` without the separator, yields `a`
      followed by the pieces of `b`. */
  lemma {:induction false} SplitPrefix(a: string, b: string, sep: char)
    requires sep !in a
    ensures Split(a + [sep] + b, sep) == [a] + Split(b, sep)
  {
    if a == [] {
      assert a + [sep] + b == [sep] + b;
      assert ([sep] + b)[1..] == b;
    } else {
      assert (a + [sep] + b)[1..] == a[1..] + [sep] + b;
      SplitPrefix(a[1..], b, sep);
      assert [a[0]] + a[1..] == a;
    }
  }

  /** Splitting a concatenation at a separator splits both halves. */
  lemma SplitConcat(a: string, b: string, sep: char)
    ensures Split(a + [sep] + b, sep) == Split(a, sep) + Split(b, sep)
  {
    var pa := Split(a, sep);
    var pb := Split(b, sep);
    JoinSplit(a, sep);
    JoinSplit(b, sep);
    JoinAppend(pa, pb, [sep]);
    SplitJoin(pa + pb, sep);
  }

  /** Joining two non-empty lists puts one separator between their joins. */
  lemma {:induction false} JoinAppend(a: seq<string>, b: seq<string>, sep: string)
    requires |a| >= 1 && |b| >= 1
    ensures Join(a + b, sep) == Join(a, sep) + sep + Join(b, sep)
  {
    if |a| == 1 {
      assert (a + b)[1..] == b;
    } else {
      assert (a + b)[1..] == a[1..] + b;
      JoinAppend(a[1..], b, sep);
    }
  }

  /** A string of white space only. */
  predicate Blank(s: string) {
    forall i :: 0 <= i < |s| ==> IsSpace(s[i])
  }

  /** Every string of a list is blank. */
  predicate AllBlank(parts: seq<string>) {
    forall k :: 0 <= k < |parts| ==> Blank(parts[k])
  }

  /** A blank string strips to nothing. */
  lemma StripBlank(s: string)
    requires Blank(s)
    ensures Strip(s) == []
  {
  }

  /** The pieces of a string made only of white space and separators are
      blank. */
  lemma {:induction false} SplitBlank(s: string, sep: char)
    requires forall i :: 0 <= i < |s| ==> IsSpace(s[i]) || s[i] == sep
    ensures AllBlank(Split(s, sep))
  {
    if s != [] {
      SplitBlank(s[1..], sep);
    }
  }

  /** `s.replace("10", "T")`: every non-overlapping "10", scanning from the
      left, becomes a single "T". */
  function ReplaceTen(s: string): (r: string)
    ensures |r| <= |s|
  {
    if |s| >= 2 && s[0] == '1' && s[1] == '0' then "T" + ReplaceTen(s[2..])
    else if s == [] then []
    else [s[0]] + ReplaceTen(s[1..])
  }

  /** No "10" survives the replacement. */
  predicate HasTen(s: string) {
    exists i :: 0 <= i < |s| - 1 && s[i] == '1' && s[i + 1] == '0'
  }

  /** After `replace("10", "T")` no "10" is left, and a string without a '1'
      is left alone. */
  lemma {:induction false} ReplaceTenRemovesTens(s: string)
    ensures !HasTen(ReplaceTen(s))
    ensures '1' !in s ==> ReplaceTen(s) == s
    ensures s != [] && s[0] != '1' ==> ReplaceTen(s) != [] && ReplaceTen(s)[0] == s[0]
  {
    if |s| >= 2 && s[0] == '1' && s[1] == '0' {
      ReplaceTenRemovesTens(s[2..]);
    } else if s != [] {
      ReplaceTenRemovesTens(s[1..]);
      var t := ReplaceTen(s[1..]);
      if '1' !in s {
        assert '1' !in s[1..];
      }
    }
  }

  /** A string with no "10" in it is left as it is. */
  lemma {:induction false} ReplaceTenKeeps(s: string)
    requires !HasTen(s)
    ensures ReplaceTen(s) == s
  {
    if s != [] {
      assert !HasTen(s[1..]) by {
        forall i | 0 <= i < |s| - 2
          ensures !(s[1..][i] == '1' && s[1..][i + 1] == '0')
        {
          assert s[1..][i] == s[i + 1] && s[1..][i + 1] == s[i + 2];
        }
      }
      ReplaceTenKeeps(s[1..]);
    }
  }

  /** The first "10" of a string becomes "T", everything in front of it
      is kept, and the rest is replaced on its own: together with
      `ReplaceTenKeeps` this pins down `replace("10", "T")` entirely. */
  lemma {:induction false} ReplaceTenFirst(a: string, b: string)
    requires !HasTen(a)
    ensures ReplaceTen(a + "10" + b) == a + "T" + ReplaceTen(b)
  {
    var s := a + "10" + b;
    if a == [] {
      assert s[2..] == b;
    } else {
      assert !HasTen(a[1..]) by {
        forall i | 0 <= i < |a| - 2
          ensures !(a[1..][i] == '1' && a[1..][i + 1] == '0')
        {
          assert a[1..][i] == a[i + 1] && a[1..][i + 1] == a[i + 2];
        }
      }
      assert s[1] == (if |a| >= 2 then a[1] else '1');
      assert s[1..] == a[1..] + "10" + b;
      ReplaceTenFirst(a[1..], b);
      assert a == [a[0]] + a[1..];
    }
  }

  /** Replacing twice is replacing once. */
  lemma {:induction false} ReplaceTenIdempotent(s: string)
    ensures ReplaceTen(ReplaceTen(s)) == ReplaceTen(s)
  {
    ReplaceTenRemovesTens(s);
    ReplaceTenKeeps(ReplaceTen(s));
  }

  /** `s.replace(old, new)` for single characters. */
  function ReplaceChar(s: string, from: char, to: char): (r: string)
    ensures |r| == |s|
    ensures from != to ==> from !in r
    ensures forall i :: 0 <= i < |s| && s[i] != from ==> r[i] == s[i]
  {
    seq(|s|, i requires 0 <= i < |s| => if s[i] == from then to else s[i])
  }
}
