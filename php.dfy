/** The PHP built-ins the modifier finder relies on. PHP strings are byte
    strings; here a byte is the `char` with the same code. */
module Php {

  datatype Option<+T> = None | Some(value: T)

  /** True when `c` is an ASCII capital letter. */
  predicate IsUpper(c: char) { 'A' <= c <= 'Z' }

  /** A string with no ASCII capital letter, as `strtolower` leaves it. */
  predicate IsLower(s: string) { forall k :: 0 <= k < |s| ==> !IsUpper(s[k]) }

  /** `strtolower` on one byte: only ASCII capitals change. */
  function LowerChar(c: char): (r: char)
    ensures !IsUpper(r)
    ensures IsUpper(c) ==> r as int == c as int + 32
    ensures !IsUpper(c) ==> r == c
  {
    if IsUpper(c) then (c as int + 32) as char else c
  }

  /** `strtolower`, locale-independent (ASCII only). */
  function Lower(s: string): (r: string)
    ensures |r| == |s|
    ensures forall k :: 0 <= k < |s| ==> r[k] == LowerChar(s[k])
    ensures IsLower(r)
  {
    seq(|s|, k requires 0 <= k < |s| => LowerChar(s[k]))
  }

  /** Lower-casing keeps every byte that is not an ASCII capital, so it never
      creates or removes a backslash. */
  lemma LowerKeepsBackslashes(s: string)
    ensures '\\' in Lower(s) <==> '\\' in s
  {
    if '\\' in s {
      var k :| 0 <= k < |s| && s[k] == '\\';
      assert Lower(s)[k] == '\\';
    }
    if '\\' in Lower(s) {
      var k :| 0 <= k < |s| && Lower(s)[k] == '\\';
      assert s[k] == '\\';
    }
  }

  /** `substr_count(s, "\n")`. */
  function CountNewlines(s: string): (n: nat)
    ensures n <= |s|
    ensures n == 0 <==> '\n' !in s
  {
    if s == [] then 0 else (if s[0] == '\n' then 1 else 0) + CountNewlines(s[1..])
  }

  /** `substr_count(s, "\n")` is the number of occurrences of the line feed. */
  lemma {:induction false} CountNewlinesCounts(s: string)
    ensures CountNewlines(s) == multiset(s)['\n']
  {
    if s != [] {
      assert s == [s[0]] + s[1..];
      CountNewlinesCounts(s[1..]);
    }
  }

  /** `end(explode('\\', s))`: the part of `s` after its last backslash, or
      all of `s` when it has none. */
  function LastSegment(s: string): (r: string)
    ensures |r| <= |s| && r == s[|s| - |r|..]
    ensures '\\' !in r
    ensures |r| < |s| ==> s[|s| - |r| - 1] == '\\'
  {
    if s == [] then []
    else if s[|s| - 1] == '\\' then []
    else
      var r := LastSegment(s[..|s| - 1]) + [s[|s| - 1]];
      assert r == s[|s| - |r|..];
      r
  }

  /** `ltrim(s, '\\')`: `s` without its leading backslashes. */
  function LtrimBackslash(s: string): (r: string)
    ensures |r| <= |s| && r == s[|s| - |r|..]
    ensures r == [] || r[0] != '\\'
    ensures forall k :: 0 <= k < |s| - |r| ==> s[k] == '\\'
  {
    if s != [] && s[0] == '\\' then LtrimBackslash(s[1..]) else s
  }

  /** `empty()` on an optional string: absent, "" and "0" are all empty. */
  predicate PhpEmpty(s: Option<string>) {
    s.None? || s.value == "" || s.value == "0"
  }

  /** No element occurs twice. */
  predicate NoDuplicates<T(==)>(s: seq<T>) {
    forall i, j :: 0 <= i < j < |s| ==> s[i] != s[j]
  }

  /** `array_values(array_unique(s))`: the first occurrence of each element,
      in order of first occurrence. */
  function Unique<T(==, !new)>(s: seq<T>): (r: seq<T>)
    ensures NoDuplicates(r)
    ensures forall x :: x in r <==> x in s
    ensures |r| <= |s|
  {
    if s == [] then []
    else
      var u := Unique(s[..|s| - 1]);
      assert s == s[..|s| - 1] + [s[|s| - 1]];
      if s[|s| - 1] in u then u else u + [s[|s| - 1]]
  }

  /** `array_merge(...$ss)` on lists: the lists joined in order. */
  function Flatten<T(!new)>(ss: seq<seq<T>>): (r: seq<T>)
    ensures forall x :: x in r <==> exists k :: 0 <= k < |ss| && x in ss[k]
  {
    if ss == [] then []
    else
      var r := Flatten(ss[..|ss| - 1]) + ss[|ss| - 1];
      assert forall k :: 0 <= k < |ss| - 1 ==> ss[..|ss| - 1][k] == ss[k];
      r
  }

  /** `array_unique` leaves a list without repeats as it is. */
  lemma {:induction false} UniqueOfDistinct<T(!new)>(s: seq<T>)
    requires NoDuplicates(s)
    ensures Unique(s) == s
  {
    if s != [] {
      UniqueOfDistinct(s[..|s| - 1]);
      assert s == s[..|s| - 1] + [s[|s| - 1]];
    }
  }

  /** Merging a single list without repeats and removing duplicates gives
      that list back. */
  lemma UniqueOfSingle<T(!new)>(s: seq<T>)
    requires NoDuplicates(s)
    ensures Unique(Flatten([s])) == s
  {
    var none: seq<seq<T>> := [];
    assert Flatten([s]) == s by {
      assert [s][..0] == none;
    }
    UniqueOfDistinct(s);
  }
}
