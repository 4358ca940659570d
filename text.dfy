/** String helpers the generator relies on: ASCII lower-casing, Python's
    `str.split` on a one-character separator and Python's `str.replace`. */
module Text {

  /** Lower-cases one ASCII letter; every other character is left alone. */
  function LowerChar(c: char): (r: char)
    ensures 'A' <= c <= 'Z' ==> r != c && 'a' <= r <= 'z'
    ensures !('A' <= c <= 'Z') ==> r == c
  {
    if 'A' <= c <= 'Z' then (c as int + 32) as char else c
  }

  /** `s.lower()`, restricted to ASCII letters. */
  function Lower(s: string): (r: string)
    ensures |r| == |s|
    ensures forall i :: 0 <= i < |s| ==> r[i] == LowerChar(s[i])
  {
    seq(|s|, i requires 0 <= i < |s| => LowerChar(s[i]))
  }

  /** Lower-casing twice is lower-casing once. */
  lemma LowerIdempotent(s: string)
    ensures Lower(Lower(s)) == Lower(s)
    ensures forall i :: 0 <= i < |s| ==> !('A' <= Lower(s)[i] <= 'Z')
  {
  }

  /** `s.split(c)`: the pieces between the separators, empty pieces included. */
  function Split(s: string, c: char): (r: seq<string>)
    ensures |r| >= 1
    ensures forall k :: 0 <= k < |r| ==> c !in r[k]
    decreases |s|
  {
    if |s| == 0 then [""]
    else
      var rest := Split(s[1..], c);
      if s[0] == c then [""] + rest
      else [[s[0]] + rest[0]] + rest[1..]
  }

  /** `c.join(parts)`. */
  function Join(parts: seq<string>, c: char): string
    requires |parts| >= 1
    decreases |parts|
  {
    if |parts| == 1 then parts[0] else parts[0] + [c] + Join(parts[1..], c)
  }

  /** Joining the pieces of a split gives back the string. */
  lemma {:induction false} JoinSplit(s: string, c: char)
    ensures Join(Split(s, c), c) == s
    decreases |s|
  {
    if |s| > 0 {
      JoinSplit(s[1..], c);
      var rest := Split(s[1..], c);
      if s[0] != c && |rest| > 1 {
        assert Join(Split(s, c), c)
            == [s[0]] + rest[0] + [c] + Join(rest[1..], c);
      }
    }
  }

  /** Splitting a join of separator-free pieces gives back the pieces. */
  lemma {:induction false} SplitJoin(parts: seq<string>, c: char)
    requires |parts| >= 1
    requires forall k :: 0 <= k < |parts| ==> c !in parts[k]
    ensures Split(Join(parts, c), c) == parts
    decreases |parts|, |parts[0]|
  {
    if |parts[0]| > 0 {
      var p0 := parts[0];
      var tail := [p0[1..]] + parts[1..];
      SplitJoin(tail, c);
      var j := Join(parts, c);
      assert Join(tail, c) == j[1..] by {
        if |parts| > 1 {
          assert j == p0 + [c] + Join(parts[1..], c);
        }
      }
      assert j[0] == p0[0] && p0[0] != c;
      assert Split(j, c) == [[p0[0]] + p0[1..]] + parts[1..];
      assert [p0[0]] + p0[1..] == p0;
    } else if |parts| > 1 {
      SplitJoin(parts[1..], c);
      var j := Join(parts, c);
      assert j == [c] + Join(parts[1..], c);
      assert j[1..] == Join(parts[1..], c);
    }
  }

  /** A string without the separator splits into itself. */
  lemma {:induction false} SplitNoSeparator(s: string, c: char)
    requires c !in s
    ensures Split(s, c) == [s]
    decreases |s|
  {
    if |s| > 0 {
      SplitNoSeparator(s[1..], c);
      assert [s[0]] + s[1..] == s;
    }
  }

  /** `(a + c + b).split(c)[0] == a` when `a` holds no separator. */
  lemma SplitHead(a: string, b: string, c: char)
    requires c !in a
    ensures Split(a + [c] + b, c)[0] == a
    ensures |Split(a + [c] + b, c)| >= 2
    ensures Split(a + [c] + b, c)[1..] == Split(b, c)
  {
    var parts := [a] + Split(b, c);
    JoinSplit(b, c);
    assert Join(parts, c) == a + [c] + b;
    SplitJoin(parts, c);
  }

  /** `s.split(c)[0]`. */
  function Head(s: string, c: char): (r: string)
    ensures c !in r
    ensures r <= s
  {
    JoinSplit(s, c);
    var parts := Split(s, c);
    assert |parts| == 1 || s == parts[0] + ([c] + Join(parts[1..], c));
    parts[0]
  }

  /** `s.split(c)[-1]`. */
  function LastField(s: string, c: char): (r: string)
    ensures c !in r
  {
    var parts := Split(s, c);
    parts[|parts| - 1]
  }

  /** `o` occurs in `s` at position `i`. */
  predicate OccursAt(s: string, o: string, i: int) {
    0 <= i && i + |o| <= |s| && s[i..i + |o|] == o
  }

  /** `o in s`. */
  predicate Occurs(s: string, o: string) {
    exists i :: 0 <= i <= |s| && OccursAt(s, o, i)
  }

  /** `s.replace(o, n)` for an empty `o`: `n` before every character and at the end. */
  function ReplaceEmpty(s: string, n: string): (r: string)
    ensures |r| == |s| + (|s| + 1) * |n|
  {
    if |s| == 0 then n else n + [s[0]] + ReplaceEmpty(s[1..], n)
  }

  /** `s.replace(o, n)`: every non-overlapping occurrence of `o`, scanned
      from the left, is replaced by `n`. */
  function Replace(s: string, o: string, n: string): string
    decreases |s|
  {
    if |o| == 0 then ReplaceEmpty(s, n)
    else if |s| < |o| then s
    else if s[..|o|] == o then n + Replace(s[|o|..], o, n)
    else [s[0]] + Replace(s[1..], o, n)
  }

  /** A replacement as long as what it replaces keeps the length. */
  lemma {:induction false} ReplaceKeepsLength(s: string, o: string, n: string)
    requires |o| > 0 && |n| == |o|
    ensures |Replace(s, o, n)| == |s|
    decreases |s|
  {
    if |s| >= |o| {
      if s[..|o|] == o {
        ReplaceKeepsLength(s[|o|..], o, n);
      } else {
        ReplaceKeepsLength(s[1..], o, n);
      }
    }
  }

  /** A character other than the first of `o` is copied and the scan moves on. */
  lemma ReplaceSkip(c: char, t: string, o: string, n: string)
    requires |o| > 0 && c != o[0]
    ensures Replace([c] + t, o, n) == [c] + Replace(t, o, n)
  {
    var s := [c] + t;
    if |s| >= |o| {
      assert s[..|o|][0] == c;
      assert s[1..] == t;
    }
  }

  /** Replacing a string by itself changes nothing. */
  lemma {:induction false} ReplaceSelf(s: string, o: string)
    requires |o| > 0
    ensures Replace(s, o, o) == s
    decreases |s|
  {
    if |s| >= |o| {
      if s[..|o|] == o {
        ReplaceSelf(s[|o|..], o);
        assert o + s[|o|..] == s;
      } else {
        ReplaceSelf(s[1..], o);
        assert [s[0]] + s[1..] == s;
      }
    }
  }

  /** A string that does not occur is not replaced. */
  lemma {:induction false} ReplaceAbsent(s: string, o: string, n: string)
    requires |o| > 0
    requires !Occurs(s, o)
    ensures Replace(s, o, n) == s
    decreases |s|
  {
    if |s| >= |o| {
      assert !OccursAt(s, o, 0);
      assert s[..|o|] != o;
      forall i | OccursAt(s[1..], o, i) ensures false {
        assert s[1..][i..i + |o|] == s[i + 1..i + 1 + |o|];
        assert OccursAt(s, o, i + 1);
      }
      ReplaceAbsent(s[1..], o, n);
      assert [s[0]] + s[1..] == s;
    }
  }

  /** The scan copies an occurrence-free prefix unchanged, replaces the first
      occurrence, and carries on after it. */
  lemma {:induction false} ReplaceFirst(a: string, o: string, b: string, n: string)
    requires |o| > 0
    requires forall i :: 0 <= i < |a| ==> !OccursAt(a + o, o, i)
    ensures Replace(a + o + b, o, n) == a + n + Replace(b, o, n)
    decreases |a|
  {
    var s := a + o + b;
    if |a| == 0 {
      assert s == o + b;
      assert s[..|o|] == o && s[|o|..] == b;
    } else {
      assert !OccursAt(a + o, o, 0);
      assert s[..|o|] == (a + o)[..|o|];
      assert s[..|o|] != o;
      forall i | 0 <= i < |a[1..]| ensures !OccursAt(a[1..] + o, o, i) {
        assert (a[1..] + o)[i..i + |o|] == (a + o)[i + 1..i + 1 + |o|];
        assert !OccursAt(a + o, o, i + 1);
      }
      ReplaceFirst(a[1..], o, b, n);
      var t := a[1..] + o + b;
      assert s == [a[0]] + t by { assert a == [a[0]] + a[1..]; }
      assert s[1..] == t;
      assert a + n + Replace(b, o, n) == [a[0]] + (a[1..] + n + Replace(b, o, n)) by {
        assert a == [a[0]] + a[1..];
      }
    }
  }
}
