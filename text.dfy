/**
 String helpers the core relies on: `str.upper` restricted to ASCII,
 `str.split` on a one-character separator with its inverse `join`, and
 substring containment (`sub in s`).
 */
module Text {

  predicate IsLowerChar(c: char) {
    'a' <= c <= 'z'
  }

  /** `c.upper()` for ASCII characters; every other character is unchanged. */
  function UpperChar(c: char): (u: char)
    ensures !IsLowerChar(u)
    ensures u != c ==> IsLowerChar(c) && u as int + 32 == c as int
  {
    if IsLowerChar(c) then (c as int - 32) as char else c
  }

  /** `s.upper()`, character by character. */
  function Upper(s: string): (u: string)
    ensures |u| == |s|
    ensures forall i :: 0 <= i < |s| ==> u[i] == UpperChar(s[i])
    ensures IsUpperCase(u)
  {
    seq(|s|, i requires 0 <= i < |s| => UpperChar(s[i]))
  }

  /** No character of `s` is a lower-case letter. */
  predicate IsUpperCase(s: string) {
    forall i :: 0 <= i < |s| ==> !IsLowerChar(s[i])
  }

  /** `s.upper() == s` holds exactly for strings without lower-case letters. */
  lemma UpperFixedIff(s: string)
    ensures Upper(s) == s <==> IsUpperCase(s)
  {
    if IsUpperCase(s) {
      forall i | 0 <= i < |s| ensures Upper(s)[i] == s[i] {
      }
    }
  }

  /** Upper-casing twice is upper-casing once. */
  lemma UpperIdempotent(s: string)
    ensures Upper(Upper(s)) == Upper(s)
  {
    UpperFixedIff(Upper(s));
  }

  /** Index of the first occurrence of `c` in `s`. */
  function IndexOf(s: string, c: char): (i: nat)
    requires c in s
    ensures i < |s| && s[i] == c
    ensures c !in s[..i]
  {
    if s[0] == c then 0
    else
      var j := IndexOf(s[1..], c);
      assert s[..j + 1] == [s[0]] + s[1..][..j];
      j + 1
  }

  /** `s.split(sep)`: the pieces between occurrences of `sep`, empty pieces included. */
  function Split(s: string, sep: char): (parts: seq<string>)
    ensures |parts| >= 1
    ensures forall p :: p in parts ==> sep !in p
    decreases |s|
  {
    if sep !in s then [s]
    else
      var i := IndexOf(s, sep);
      [s[..i]] + Split(s[i + 1..], sep)
  }

  /** `sep.join(parts)`. */
  function Join(parts: seq<string>, sep: char): string
  {
    if |parts| == 0 then ""
    else if |parts| == 1 then parts[0]
    else parts[0] + [sep] + Join(parts[1..], sep)
  }

  /** Joining the pieces of a split gives back the original string. */
  lemma {:induction false} JoinSplit(s: string, sep: char)
    ensures Join(Split(s, sep), sep) == s
    decreases |s|
  {
    if sep in s {
      var i := IndexOf(s, sep);
      var p, rest := s[..i], s[i + 1..];
      var tail := Split(rest, sep);
      assert Split(s, sep) == [p] + tail;
      JoinSplit(rest, sep);
      assert ([p] + tail)[0] == p && ([p] + tail)[1..] == tail;
      assert Join([p] + tail, sep) == p + [sep] + Join(tail, sep);
      assert s == p + [sep] + rest;
    }
  }

  /** Splitting a join of separator-free pieces gives the pieces back. */
  lemma {:induction false} SplitJoin(parts: seq<string>, sep: char)
    requires |parts| >= 1
    requires forall p :: p in parts ==> sep !in p
    ensures Split(Join(parts, sep), sep) == parts
  {
    if |parts| > 1 {
      SplitJoin(parts[1..], sep);
      SplitCons(parts[0], sep, Join(parts[1..], sep));
    }
  }

  /** A piece that holds no separator is split off exactly as it is. */
  lemma {:induction false} SplitCons(a: string, sep: char, rest: string)
    requires sep !in a
    ensures Split(a + [sep] + rest, sep) == [a] + Split(rest, sep)
  {
    var s := a + [sep] + rest;
    assert s[|a|] == sep;
    var i := IndexOf(s, sep);
    assert s[..|a|] == a;
    assert i == |a|;
    assert s[i + 1..] == rest;
  }

  /** Splitting the separator-joined concatenation of two strings splits each one. */
  lemma {:induction false} SplitAppend(a: string, sep: char, b: string)
    ensures Split(a + [sep] + b, sep) == Split(a, sep) + Split(b, sep)
    decreases |a|
  {
    if sep !in a {
      SplitCons(a, sep, b);
    } else {
      var i := IndexOf(a, sep);
      var p, a' := a[..i], a[i + 1..];
      assert a == p + [sep] + a';
      calc {
        Split(a + [sep] + b, sep);
        { assert a + [sep] + b == p + [sep] + (a' + [sep] + b); }
        Split(p + [sep] + (a' + [sep] + b), sep);
        { SplitCons(p, sep, a' + [sep] + b); }
        [p] + Split(a' + [sep] + b, sep);
        { SplitAppend(a', sep, b); }
        [p] + (Split(a', sep) + Split(b, sep));
        { SplitCons(p, sep, a'); }
        Split(a, sep) + Split(b, sep);
      }
    }
  }

  /** `sub in s` for strings. */
  predicate Contains(s: string, sub: string) {
    exists i | 0 <= i <= |s| :: OccursAt(s, sub, i)
  }

  /** `sub` appears in `s` starting at index `i`. */
  predicate OccursAt(s: string, sub: string, i: int) {
    0 <= i <= |s| - |sub| && s[i..i + |sub|] == sub
  }
}
