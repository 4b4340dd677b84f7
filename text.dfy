/** String operations the copier relies on: ASCII lower-casing, splitting on a
    delimiter the way Python's `str.split(sep)` does, and substring search
    (Python's `key in name`). */
module Text {

  /** Lower-cases one character; only the ASCII letters A-Z change. */
  function LowerChar(c: char): (r: char)
    ensures !('A' <= r <= 'Z')
    ensures 'A' <= c <= 'Z' ==> 'a' <= r <= 'z' && r as int - 'a' as int == c as int - 'A' as int
    ensures !('A' <= c <= 'Z') ==> r == c
  {
    if 'A' <= c <= 'Z' then (c as int + 32) as char else c
  }

  /** `s.lower()`, restricted to ASCII letters. */
  function Lower(s: string): (r: string)
    ensures |r| == |s|
    ensures forall i :: 0 <= i < |s| ==> r[i] == LowerChar(s[i])
  {
    if s == [] then [] else [LowerChar(s[0])] + Lower(s[1..])
  }

  /** Lower-casing twice is lower-casing once, so `car_code.lower()` on an
      already lower-cased code changes nothing. */
  lemma LowerIdempotent(s: string)
    ensures Lower(Lower(s)) == Lower(s)
  {
    assert |Lower(Lower(s))| == |Lower(s)|;
    forall i | 0 <= i < |s| ensures Lower(Lower(s))[i] == Lower(s)[i] { }
  }

  /** A string with no upper-case ASCII letter is its own lower-case form. */
  lemma LowerOfLowerCase(s: string)
    requires forall i :: 0 <= i < |s| ==> !('A' <= s[i] <= 'Z')
    ensures Lower(s) == s
  {
    assert |Lower(s)| == |s|;
    forall i | 0 <= i < |s| ensures Lower(s)[i] == s[i] { }
  }

  /** Number of occurrences of `d` in `s`. */
  function Count(s: string, d: char): (n: nat)
    ensures n <= |s|
  {
    if s == [] then 0 else (if s[0] == d then 1 else 0) + Count(s[1..], d)
  }

  /** `s.split(d)`: the maximal runs between occurrences of `d`; an empty
      string splits into one empty segment, adjacent delimiters give an
      empty segment between them. */
  function Split(s: string, d: char): (r: seq<string>)
    ensures |r| >= 1
  {
    if s == [] then [[]]
    else
      var rest := Split(s[1..], d);
      if s[0] == d then [[]] + rest else [[s[0]] + rest[0]] + rest[1..]
  }

  /** `d.join(segs)`, the inverse of Split. */
  function Join(segs: seq<string>, d: char): string
  {
    if segs == [] then []
    else if |segs| == 1 then segs[0]
    else segs[0] + [d] + Join(segs[1..], d)
  }

  /** No segment of a split contains the delimiter. */
  lemma {:induction false} SplitSegmentsFree(s: string, d: char)
    ensures forall i :: 0 <= i < |Split(s, d)| ==> d !in Split(s, d)[i]
  {
    if s != [] {
      SplitSegmentsFree(s[1..], d);
      var rest := Split(s[1..], d);
      if s[0] != d {
        var r := Split(s, d);
        assert r == [[s[0]] + rest[0]] + rest[1..];
        forall i | 0 <= i < |r| ensures d !in r[i] {
          if i > 0 { assert r[i] == rest[i]; }
        }
      }
    }
  }

  /** Splitting yields one more segment than there are delimiters. */
  lemma {:induction false} SplitCount(s: string, d: char)
    ensures |Split(s, d)| == Count(s, d) + 1
  {
    if s != [] { SplitCount(s[1..], d); }
  }

  /** Joining the segments of a split gives back the string. */
  lemma {:induction false} JoinSplit(s: string, d: char)
    ensures Join(Split(s, d), d) == s
  {
    if s != [] {
      JoinSplit(s[1..], d);
      var rest := Split(s[1..], d);
      if s[0] == d {
        assert Split(s, d) == [[]] + rest;
        assert s == [d] + s[1..];
      } else if |rest| == 1 {
        assert Split(s, d) == [[s[0]] + rest[0]];
        assert s == [s[0]] + s[1..];
      } else {
        var r := Split(s, d);
        assert r == [[s[0]] + rest[0]] + rest[1..];
        assert r[1..] == rest[1..];
        calc {
          Join(r, d);
          [s[0]] + rest[0] + [d] + Join(rest[1..], d);
          [s[0]] + (rest[0] + [d] + Join(rest[1..], d));
          [s[0]] + Join(rest, d);
          [s[0]] + s[1..];
          s;
        }
      }
    }
  }

  /** Splitting a delimiter-free prefix followed by a delimiter. */
  lemma {:induction false} SplitAfterSegment(a: string, d: char, t: string)
    requires d !in a
    ensures Split(a + [d] + t, d) == [a] + Split(t, d)
  {
    if a == [] {
      assert a + [d] + t == [d] + t;
    } else {
      SplitAfterSegment(a[1..], d, t);
      assert (a + [d] + t)[1..] == a[1..] + [d] + t;
      assert a == [a[0]] + a[1..];
    }
  }

  /** A delimiter-free string is a single segment. */
  lemma {:induction false} SplitFree(a: string, d: char)
    requires d !in a
    ensures Split(a, d) == [a]
  {
    if a != [] {
      SplitFree(a[1..], d);
      assert a == [a[0]] + a[1..];
    }
  }

  /** Split is the only way to cut a string into delimiter-free segments:
      splitting what was joined gives back the segments. */
  lemma {:induction false} SplitJoin(segs: seq<string>, d: char)
    requires |segs| >= 1
    requires forall i :: 0 <= i < |segs| ==> d !in segs[i]
    ensures Split(Join(segs, d), d) == segs
  {
    if |segs| == 1 {
      SplitFree(segs[0], d);
    } else {
      SplitJoin(segs[1..], d);
      SplitAfterSegment(segs[0], d, Join(segs[1..], d));
      assert segs == [segs[0]] + segs[1..];
    }
  }

  /** `key in s` for strings: some window of `s` equals `key`; the empty key
      is in every string. */
  function Contains(key: string, s: string): (b: bool)
    ensures key == [] ==> b
    ensures |key| > |s| ==> !b
  {
    key <= s || (s != [] && Contains(key, s[1..]))
  }

  /** `key` occurs in `s` starting at position `i`. */
  predicate OccursAt(key: string, s: string, i: nat)
  {
    i + |key| <= |s| && s[i..i + |key|] == key
  }

  /** Contains means: `key` occurs at some position of `s`. */
  lemma {:induction false} ContainsAt(key: string, s: string)
    ensures Contains(key, s) <==> exists i: nat :: OccursAt(key, s, i)
  {
    if key <= s {
      assert OccursAt(key, s, 0);
    } else if s == [] {
    } else {
      ContainsAt(key, s[1..]);
      if Contains(key, s) {
        var i: nat :| OccursAt(key, s[1..], i);
        assert s[i + 1..i + 1 + |key|] == s[1..][i..i + |key|];
        assert OccursAt(key, s, i + 1);
      }
      if exists i: nat :: OccursAt(key, s, i) {
        var i: nat :| OccursAt(key, s, i);
        assert i != 0;
        assert s[1..][i - 1..i - 1 + |key|] == s[i..i + |key|];
        assert OccursAt(key, s[1..], i - 1);
      }
    }
  }

  /** Every string contains itself. */
  lemma ContainsSelf(s: string)
    ensures Contains(s, s)
  {
  }

  /** A key with a character the string lacks is not in the string. */
  lemma ContainsNeedsChars(key: string, s: string, j: nat)
    requires j < |key| && key[j] !in s
    ensures !Contains(key, s)
  {
    ContainsAt(key, s);
    forall i: nat | i + |key| <= |s|
      ensures !OccursAt(key, s, i)
    {
      assert s[i..i + |key|][j] == s[i + j];
      assert s[i + j] in s;
    }
  }
}
