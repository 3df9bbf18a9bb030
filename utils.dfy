/** Alias lists and stack frames: cleaning up the signatures a class declares
    as its own, and testing a stack frame against them (src/Utils.php). */
module Utils {
  import opened Php

  /** A normalised alias: a bare function name, or a (class, method) pair. */
  datatype Alias = Name(name: string) | Pair(cls: string, name: string)

  /** The PHP values an alias list may hold before normalisation: strings,
      arrays (taken as lists of their values) and anything else. */
  datatype Value = Str(s: string) | Arr(items: seq<Value>) | OtherValue

  /** One stack frame, with the keys the finder reads; a key may be missing. */
  datatype Frame = Frame(file: Option<string>, line: Option<int>, func: Option<string>, cls: Option<string>)

  /** An alias with no ASCII capital letter in it. */
  predicate IsLowerAlias(a: Alias) {
    match a
    case Name(n) => IsLower(n)
    case Pair(c, n) => IsLower(c) && IsLower(n)
  }

  // ---------------------------------------------------------------------
  // traceFrameIsListed (src/Utils.php:10-19)

  /** `$frame['function']`; a missing key reads as null, which `strtolower`
      turns into "". */
  function FunctionName(f: Frame): string {
    if f.func.Some? then f.func.value else ""
  }

  /** `$called`: the lower-cased pair when the frame has a class, the
      lower-cased function name otherwise. */
  function CalledAs(f: Frame): (a: Alias)
    ensures a.Pair? <==> f.cls.Some?
    ensures IsLowerAlias(a)
    ensures a.name == Lower(FunctionName(f))
    ensures a.Pair? ==> a.cls == Lower(f.cls.value)
  {
    if f.cls.Some? then Pair(Lower(f.cls.value), Lower(FunctionName(f)))
    else Name(Lower(FunctionName(f)))
  }

  /** `in_array($called, $matches, true)`. */
  predicate TraceFrameIsListed(f: Frame, matches: seq<Alias>) {
    CalledAs(f) in matches
  }

  /** A frame with a class never matches a bare name, and a frame without one
      never matches a pair. */
  lemma ShapeMustAgree(f: Frame, matches: seq<Alias>)
    requires TraceFrameIsListed(f, matches)
    ensures exists k :: 0 <= k < |matches| && matches[k].Pair? == f.cls.Some?
  {
    var k :| 0 <= k < |matches| && matches[k] == CalledAs(f);
  }

  /** Matching ignores ASCII case in the frame's class and function names. */
  lemma ListedIgnoresCase(f: Frame, g: Frame, matches: seq<Alias>)
    requires f.cls.Some? == g.cls.Some?
    requires Lower(FunctionName(f)) == Lower(FunctionName(g))
    requires f.cls.Some? ==> Lower(f.cls.value) == Lower(g.cls.value)
    ensures TraceFrameIsListed(f, matches) <==> TraceFrameIsListed(g, matches)
  {
  }

  /** Only a lower-case entry can ever be matched. */
  lemma ListedEntryIsLower(f: Frame, matches: seq<Alias>) returns (k: nat)
    requires TraceFrameIsListed(f, matches)
    ensures k < |matches| && matches[k] == CalledAs(f) && IsLowerAlias(matches[k])
  {
    k :| 0 <= k < |matches| && matches[k] == CalledAs(f);
  }

  // ---------------------------------------------------------------------
  // The two identifier patterns of normalizeAliases (src/Utils.php:28-29, 40)

  /** `[a-zA-Z_\x7f-\xff]`. */
  predicate IsIdentStart(c: char) {
    'a' <= c <= 'z' || 'A' <= c <= 'Z' || c == '_' || 0x7f <= c as int <= 0xff
  }

  /** `[a-zA-Z0-9_\x7f-\xff]`. */
  predicate IsIdentChar(c: char) {
    IsIdentStart(c) || '0' <= c <= '9'
  }

  /** The whole string is an identifier. */
  predicate IsIdentifier(s: string) {
    |s| > 0 && IsIdentStart(s[0]) && forall k :: 1 <= k < |s| ==> IsIdentChar(s[k])
  }

  /** The whole string is an identifier in which backslashes may also occur,
      first position included. */
  predicate IsClassName(s: string) {
    |s| > 0 && (IsIdentStart(s[0]) || s[0] == '\\')
    && forall k :: 1 <= k < |s| ==> IsIdentChar(s[k]) || s[k] == '\\'
  }

  /** A pattern anchored with `^…$` and no `D` modifier: `$` also matches
      in front of one final line feed. */
  predicate AnchoredMatch(whole: bool, chopped: bool, s: string) {
    whole || (|s| > 0 && s[|s| - 1] == '\n' && chopped)
  }

  /** `preg_match('/^[a-zA-Z_\x7f-\xff][a-zA-Z0-9_\x7f-\xff]*$/', s)`. */
  predicate MatchesIdentifierPattern(s: string) {
    AnchoredMatch(IsIdentifier(s), |s| > 0 && IsIdentifier(s[..|s| - 1]), s)
  }

  /** `preg_match('/^[a-zA-Z_\x7f-\xff\\][a-zA-Z0-9_\x7f-\xff\\]*$/', s)`. */
  predicate MatchesClassPattern(s: string) {
    AnchoredMatch(IsClassName(s), |s| > 0 && IsClassName(s[..|s| - 1]), s)
  }

  /** Every identifier is also a valid class part. */
  lemma IdentifierIsClassName(s: string)
    requires MatchesIdentifierPattern(s)
    ensures MatchesClassPattern(s)
  {
  }

  // ---------------------------------------------------------------------
  // normalizeAliases (src/Utils.php:21-52)

  /** `array_values(array_filter($items, 'is_string'))`. */
  function StringsOf(items: seq<Value>): (r: seq<string>)
    ensures |r| <= |items|
    ensures |r| == |items| <==> forall k :: 0 <= k < |items| ==> items[k].Str?
    ensures |r| == |items| ==> forall k :: 0 <= k < |items| ==> r[k] == items[k].s
  {
    if items == [] then []
    else
      var init := items[..|items| - 1];
      var last := items[|items| - 1];
      var r := StringsOf(init) + (if last.Str? then [last.s] else []);
      assert forall k :: 0 <= k < |init| ==> init[k] == items[k];
      r
  }

  /** What one entry of the list becomes: its canonical form, or nothing
      when the entry is dropped. */
  function NormalizeEntry(v: Value): (r: Option<Alias>)
    ensures r.Some? ==> IsLowerAlias(r.value)
    ensures v.Str? ==> (r.Some? <==> MatchesIdentifierPattern(v.s))
    ensures v.Str? && r.Some? ==> r.value == Name(Lower(v.s))
    ensures v.Arr? ==> (r.Some? <==>
              |v.items| == 2 && v.items[0].Str? && v.items[1].Str?
              && MatchesIdentifierPattern(v.items[1].s) && MatchesClassPattern(v.items[0].s))
    ensures v.Arr? && r.Some? ==>
              r.value == Pair(Lower(LtrimBackslash(v.items[0].s)), Lower(v.items[1].s))
    ensures v.OtherValue? ==> r.None?
  {
    match v
    case Arr(items) =>
      if |items| == 2 then
        var alias := StringsOf(items);
        if |alias| == 2 && MatchesIdentifierPattern(alias[1]) && MatchesClassPattern(alias[0]) then
          Some(Pair(Lower(LtrimBackslash(alias[0])), Lower(alias[1])))
        else None
      else None
    case Str(s) => if MatchesIdentifierPattern(s) then Some(Name(Lower(s))) else None
    case OtherValue => None
  }

  /** The normalised list: the surviving entries, canonicalised, in their
      original order and numbered from 0. */
  function Normalized(aliases: seq<Value>): (r: seq<Alias>)
    ensures |r| <= |aliases|
    ensures forall k :: 0 <= k < |r| ==> IsLowerAlias(r[k])
  {
    if aliases == [] then []
    else
      var e := NormalizeEntry(aliases[|aliases| - 1]);
      Normalized(aliases[..|aliases| - 1]) + (if e.Some? then [e.value] else [])
  }

  /** Normalisation works entry by entry: the result for a list is the
      result for its front followed by the result for its back. */
  lemma {:induction false} NormalizedAppend(a: seq<Value>, b: seq<Value>)
    ensures Normalized(a + b) == Normalized(a) + Normalized(b)
    decreases |b|
  {
    if b == [] {
      assert a + b == a;
    } else {
      assert (a + b)[..|a + b| - 1] == a + b[..|b| - 1];
      NormalizedAppend(a, b[..|b| - 1]);
    }
  }

  /** An entry that survives normalisation lands in the list. */
  lemma {:induction false} NormalizedKeeps(aliases: seq<Value>, k: nat)
    requires k < |aliases| && NormalizeEntry(aliases[k]).Some?
    ensures NormalizeEntry(aliases[k]).value in Normalized(aliases)
  {
    var init := aliases[..|aliases| - 1];
    if k < |aliases| - 1 {
      assert init[k] == aliases[k];
      NormalizedKeeps(init, k);
    }
  }

  /** Every alias in the list comes from an entry of the declared list. */
  lemma {:induction false} NormalizedSource(aliases: seq<Value>, x: Alias) returns (k: nat)
    requires x in Normalized(aliases)
    ensures k < |aliases| && NormalizeEntry(aliases[k]) == Some(x)
  {
    var init := aliases[..|aliases| - 1];
    if NormalizeEntry(aliases[|aliases| - 1]) == Some(x) {
      k := |aliases| - 1;
    } else {
      k := NormalizedSource(init, x);
      assert init[k] == aliases[k];
    }
  }

  /** An alias is in the normalised list exactly when some entry of the
      declared list normalises to it. */
  lemma NormalizedMembers(aliases: seq<Value>, x: Alias)
    ensures x in Normalized(aliases) <==> exists k :: 0 <= k < |aliases| && NormalizeEntry(aliases[k]) == Some(x)
  {
    if x in Normalized(aliases) {
      var k := NormalizedSource(aliases, x);
    }
    if exists k :: 0 <= k < |aliases| && NormalizeEntry(aliases[k]) == Some(x) {
      var k :| 0 <= k < |aliases| && NormalizeEntry(aliases[k]) == Some(x);
      NormalizedKeeps(aliases, k);
    }
  }

  /** A list where every entry is dropped normalises to nothing; in
      particular the empty list. */
  lemma {:induction false} NothingSurvives(aliases: seq<Value>)
    requires forall k :: 0 <= k < |aliases| ==> NormalizeEntry(aliases[k]).None?
    ensures Normalized(aliases) == []
  {
    if aliases != [] {
      NothingSurvives(aliases[..|aliases| - 1]);
    }
  }

  /** A declared function name matches a class-less frame calling that
      function, whatever the case of either. */
  lemma DeclaredNameMatches(aliases: seq<Value>, k: nat, f: Frame)
    requires k < |aliases| && aliases[k].Str? && MatchesIdentifierPattern(aliases[k].s)
    requires f.cls.None? && Lower(FunctionName(f)) == Lower(aliases[k].s)
    ensures TraceFrameIsListed(f, Normalized(aliases))
  {
    NormalizedMembers(aliases, CalledAs(f));
  }

  /** A declared `[class, method]` pair matches a frame of that method,
      with any leading backslashes of the declared class ignored. */
  lemma DeclaredPairMatches(aliases: seq<Value>, k: nat, cls: string, name: string, f: Frame)
    requires k < |aliases| && aliases[k] == Arr([Str(cls), Str(name)])
    requires MatchesClassPattern(cls) && MatchesIdentifierPattern(name)
    requires f.cls.Some? && Lower(f.cls.value) == Lower(LtrimBackslash(cls))
    requires Lower(FunctionName(f)) == Lower(name)
    ensures TraceFrameIsListed(f, Normalized(aliases))
  {
    NormalizedMembers(aliases, CalledAs(f));
  }

  /** A slot of the list while the loop rewrites it: not visited yet,
      rewritten to its canonical form, or unset. */
  datatype Slot = Raw(v: Value) | Rewritten(alias: Alias) | Unset

  /** The slot an entry ends up in. */
  function SlotFor(v: Value): (s: Slot)
    ensures !s.Raw?
    ensures s.Rewritten? <==> NormalizeEntry(v).Some?
    ensures s.Rewritten? ==> s.alias == NormalizeEntry(v).value
  {
    var e := NormalizeEntry(v);
    if e.Some? then Rewritten(e.value) else Unset
  }

  /** `array_values` once every slot has been visited: the rewritten
      entries in order, numbered from 0. */
  function Reindexed(slots: seq<Slot>): (r: seq<Alias>)
    requires forall k :: 0 <= k < |slots| ==> !slots[k].Raw?
    ensures |r| <= |slots|
  {
    if slots == [] then []
    else
      var last := slots[|slots| - 1];
      Reindexed(slots[..|slots| - 1]) + (if last.Rewritten? then [last.alias] else [])
  }

  /** Rewriting every slot and then reindexing yields the normalised list. */
  lemma {:induction false} ReindexedSlots(aliases: seq<Value>, slots: seq<Slot>)
    requires |slots| == |aliases|
    requires forall k :: 0 <= k < |slots| ==> slots[k] == SlotFor(aliases[k]) && !slots[k].Raw?
    ensures Reindexed(slots) == Normalized(aliases)
  {
    if slots != [] {
      ReindexedSlots(aliases[..|aliases| - 1], slots[..|slots| - 1]);
    }
  }

  /** The by-reference loop of src/Utils.php:23-49 followed by
      `array_values`. */
  method NormalizeAliases(aliases: seq<Value>) returns (r: seq<Alias>)
    ensures r == Normalized(aliases)
  {
    var slots := seq(|aliases|, k requires 0 <= k < |aliases| => Raw(aliases[k]));
    for index := 0 to |aliases|
      invariant |slots| == |aliases|
      invariant forall k :: 0 <= k < index ==> slots[k] == SlotFor(aliases[k])
      invariant forall k :: index <= k < |aliases| ==> slots[k] == Raw(aliases[k])
    {
      var alias := slots[index].v;
      if alias.Arr? && |alias.items| == 2 {
        var kept := StringsOf(alias.items);
        if |kept| == 2 && MatchesIdentifierPattern(kept[1]) && MatchesClassPattern(kept[0]) {
          assert SlotFor(alias) == Rewritten(Pair(Lower(LtrimBackslash(kept[0])), Lower(kept[1])));
          slots := slots[index := Rewritten(Pair(Lower(LtrimBackslash(kept[0])), Lower(kept[1])))];
        } else {
          assert SlotFor(alias) == Unset;
          slots := slots[index := Unset];
          continue;
        }
      } else if alias.Str? {
        if MatchesIdentifierPattern(alias.s) {
          assert SlotFor(alias) == Rewritten(Name(Lower(alias.s)));
          slots := slots[index := Rewritten(Name(Lower(alias.s)))];
        } else {
          assert SlotFor(alias) == Unset;
          slots := slots[index := Unset];
          continue;
        }
      } else {
        assert SlotFor(alias) == Unset;
        slots := slots[index := Unset];
      }
    }
    ReindexedSlots(aliases, slots);
    r := Reindexed(slots);
  }
}
