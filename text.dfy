/**
 The few java.lang.String operations the email step relies on (indexOf, lastIndexOf,
 substring, contains, replaceAll of one character), with Java's semantics: a missing
 character is index -1, and an out-of-range substring is a failure (Java throws
 StringIndexOutOfBoundsException), modelled as None. Positions count Unicode scalar
 values, where Java counts UTF-16 code units.
 */
module Text {

  datatype Option<+T> = None | Some(value: T) {
    predicate IsFailure() { None? }

    function PropagateFailure<U>(): Option<U>
      requires None?
    {
      None
    }

    function Extract(): T
      requires Some?
    {
      value
    }

    function GetOr(default: T): T {
      if Some? then value else default
    }
  }

  /** `s.indexOf(c)`: the first position of `c`, or -1. */
  function IndexOf(s: string, c: char): (r: int)
    ensures -1 <= r < |s|
  {
    if s == [] then -1
    else if s[0] == c then 0
    else
      var k := IndexOf(s[1..], c);
      if k == -1 then -1 else k + 1
  }

  /** `IndexOf` is -1 exactly when `c` is absent, and otherwise finds its first occurrence. */
  lemma {:induction false} IndexOfMeaning(s: string, c: char)
    ensures IndexOf(s, c) == -1 <==> c !in s
    ensures IndexOf(s, c) >= 0 ==> s[IndexOf(s, c)] == c && c !in s[..IndexOf(s, c)]
    decreases |s|
  {
    if s != [] && s[0] != c {
      IndexOfMeaning(s[1..], c);
      var k := IndexOf(s[1..], c);
      assert s == [s[0]] + s[1..];
      if k != -1 {
        assert s[..k + 1] == [s[0]] + s[1..][..k];
      }
    }
  }

  /** `s.lastIndexOf(c)`: the last position of `c`, or -1. */
  function LastIndexOf(s: string, c: char): (r: int)
    ensures -1 <= r < |s|
  {
    if s == [] then -1
    else if s[|s| - 1] == c then |s| - 1
    else LastIndexOf(s[..|s| - 1], c)
  }

  /** `LastIndexOf` is -1 exactly when `c` is absent, and otherwise finds its last occurrence. */
  lemma {:induction false} LastIndexOfMeaning(s: string, c: char)
    ensures LastIndexOf(s, c) == -1 <==> c !in s
    ensures LastIndexOf(s, c) >= 0 ==> s[LastIndexOf(s, c)] == c && c !in s[LastIndexOf(s, c) + 1..]
    decreases |s|
  {
    if s != [] && s[|s| - 1] != c {
      var init := s[..|s| - 1];
      LastIndexOfMeaning(init, c);
      var k := LastIndexOf(init, c);
      assert s == init + [s[|s| - 1]];
      if k >= 0 {
        assert s[k + 1..] == init[k + 1..] + [s[|s| - 1]];
      }
    }
  }

  /** `s.substring(begin, end)`; None where Java throws. */
  function Substring(s: string, begin: int, end: int): Option<string> {
    if 0 <= begin <= end <= |s| then Some(s[begin..end]) else None
  }

  /** `sub` occurs in `s` starting at position `i`. */
  predicate MatchAt(s: string, sub: string, i: int) {
    0 <= i <= |s| - |sub| && s[i..i + |sub|] == sub
  }

  /** `s.contains(sub)`: some window of `s` spells `sub`. */
  function Contains(s: string, sub: string): (r: bool)
    ensures r <==> exists i :: MatchAt(s, sub, i)
    decreases |s|
  {
    if |sub| > |s| then false
    else if s[..|sub|] == sub then assert MatchAt(s, sub, 0); true
    else
      ContainsShift(s, sub);
      Contains(s[1..], sub)
  }

  /** Windows of `s` other than the first one are exactly the windows of `s[1..]`. */
  lemma ContainsShift(s: string, sub: string)
    requires |sub| <= |s| && s[..|sub|] != sub
    ensures (exists i :: MatchAt(s, sub, i)) <==> (exists i :: MatchAt(s[1..], sub, i))
  {
    if i :| MatchAt(s, sub, i) {
      assert i != 0;
      assert s[1..][i - 1..i - 1 + |sub|] == sub;
      assert MatchAt(s[1..], sub, i - 1);
    }
    if i :| MatchAt(s[1..], sub, i) {
      assert s[i + 1..i + 1 + |sub|] == sub;
      assert MatchAt(s, sub, i + 1);
    }
  }

  /** `s.replaceAll(c, "")` for a one-character regular expression: every `c` dropped. */
  function RemoveAll(s: string, c: char): (r: string)
    ensures c !in r
    ensures |r| <= |s|
    ensures c !in s ==> r == s
  {
    if s == [] then []
    else (if s[0] == c then [] else [s[0]]) + RemoveAll(s[1..], c)
  }

  /** `RemoveAll` keeps every character other than `c` as often as `s` has it. */
  lemma {:induction false} RemoveAllKeepsOthers(s: string, c: char)
    ensures multiset(RemoveAll(s, c)) == multiset(s)[c := 0]
    decreases |s|
  {
    if s != [] {
      assert s == [s[0]] + s[1..];
      RemoveAllKeepsOthers(s[1..], c);
    }
  }

  /** On one character `RemoveAll` drops it exactly when it is `c`; with `RemoveAllAppend`
      this makes `RemoveAll` the filter that keeps every other character, in order. */
  lemma RemoveAllSingle(x: char, c: char)
    ensures RemoveAll([x], c) == if x == c then [] else [x]
  {
    assert [x][1..] == [];
  }

  lemma {:induction false} RemoveAllAppend(a: string, b: string, c: char)
    ensures RemoveAll(a + b, c) == RemoveAll(a, c) + RemoveAll(b, c)
    decreases |a|
  {
    if a == [] {
      assert a + b == b;
    } else {
      assert (a + b)[0] == a[0];
      assert (a + b)[1..] == a[1..] + b;
      RemoveAllAppend(a[1..], b, c);
    }
  }
}
