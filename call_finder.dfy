/** The call-site scanner of src/CallFinder.php: given the tokens of a source
    file, the line a call was reported on and the call's signature, it finds
    the calls of that signature that reach the line and returns the unary
    operators written directly in front of them.

    The specification functions (`NextReal`, `CallLength`, `QualifierStart`,
    `OperatorsFrom`, `Accepted`, `ModifiersUsed`) say what the scan computes;
    the methods (`RealTokenIndex`, `ScanCall`, `ModifiersBefore`,
    `GetModifiersUsed`) are its loops, proved against them. */
module CallFinder {
  import opened Php
  import opened Tokens

  /** What `getModifiersUsed` is asked to find: a bare function name, or a
      `[class, method]` pair. */
  datatype Signature = Function(name: string) | StaticMethod(cls: string, name: string)

  /** The lower-cased names a signature is matched by (lines 56-63). */
  datatype Target = Target(cls: Option<string>, name: string)

  function TargetOf(sig: Signature): (t: Target)
    ensures t.cls.None? <==> sig.Function?
    ensures t.name == Lower(sig.name)
    ensures t.cls.Some? ==> IsLower(t.cls.value) && '\\' !in t.cls.value
    ensures t.cls.Some? ==>
              exists k :: 0 <= k <= |sig.cls| && (k == 0 || sig.cls[k - 1] == '\\')
                          && t.cls.value == Lower(sig.cls[k..])
  {
    match sig
    case Function(name) => Target(None, Lower(name))
    case StaticMethod(cls, name) =>
      var last := LastSegment(cls);
      LowerKeepsBackslashes(last);
      var k := |cls| - |last|;
      assert k == 0 || cls[k - 1] == '\\';
      assert cls[k..] == last;
      Target(Some(Lower(last)), Lower(name))
  }

  // ---------------------------------------------------------------------
  // realTokenIndex (lines 192-205)

  /** The first index after `i` whose token is not ignored, if there is one. */
  function NextReal(tokens: seq<Token>, i: int): (r: Option<nat>)
    ensures r.Some? ==> 0 <= i + 1 <= r.value < |tokens| && !Ignored(tokens[r.value])
    ensures r.Some? ==> forall k :: i < k < r.value ==> Ignored(tokens[k])
    ensures r.None? ==> i + 1 < 0 || forall k :: i < k < |tokens| ==> Ignored(tokens[k])
    decreases |tokens| - i
  {
    if i + 1 < 0 || i + 1 >= |tokens| then None
    else if !Ignored(tokens[i + 1]) then Some(i + 1)
    else NextReal(tokens, i + 1)
  }

  method RealTokenIndex(tokens: seq<Token>, i: int) returns (r: Option<nat>)
    ensures r == NextReal(tokens, i)
  {
    var index := i + 1;
    while 0 <= index < |tokens|
      invariant i + 1 <= index
      invariant NextReal(tokens, index - 1) == NextReal(tokens, i)
      decreases |tokens| - index
    {
      if !Ignored(tokens[index]) {
        return Some(index);
      }
      index := index + 1;
    }
    return None;
  }

  // ---------------------------------------------------------------------
  // The forward scan to the end of the call (lines 112-150)

  /** Depth and in-string flag of the forward scan. */
  datatype Nesting = Nesting(depth: int, inString: bool)

  /** How one token moves the depth (lines 127-142). */
  function Step(n: Nesting, t: Token): Nesting {
    if OpensLevel(t) then Nesting(n.depth + 1, n.inString)
    else if ClosesLevel(t) then Nesting(n.depth - 1, n.inString)
    else if t == Ch('"') then Nesting(if n.inString then n.depth - 1 else n.depth + 1, !n.inString)
    else n
  }

  /** The nesting after the tokens `ts`, from depth 1 outside any string. */
  function NestingAfter(ts: seq<Token>): Nesting {
    if ts == [] then Nesting(1, false) else Step(NestingAfter(ts[..|ts| - 1]), ts[|ts| - 1])
  }

  function Opens(ts: seq<Token>): nat {
    if ts == [] then 0 else Opens(ts[..|ts| - 1]) + (if OpensLevel(ts[|ts| - 1]) then 1 else 0)
  }

  function Closes(ts: seq<Token>): nat {
    if ts == [] then 0 else Closes(ts[..|ts| - 1]) + (if ClosesLevel(ts[|ts| - 1]) then 1 else 0)
  }

  function Quotes(ts: seq<Token>): nat {
    if ts == [] then 0 else Quotes(ts[..|ts| - 1]) + (if ts[|ts| - 1] == Ch('"') then 1 else 0)
  }

  /** The depth counter follows the brackets: it is one, plus the opening
      brackets, minus the closing ones, plus one while inside a string; and a
      string is open exactly when an odd number of `"` has been passed. */
  lemma {:induction false} NestingCounts(ts: seq<Token>)
    ensures NestingAfter(ts).inString <==> Quotes(ts) % 2 == 1
    ensures NestingAfter(ts).depth == 1 + Opens(ts) - Closes(ts) + Quotes(ts) % 2
  {
    if ts != [] {
      NestingCounts(ts[..|ts| - 1]);
    }
  }

  /** How many tokens the forward scan passes, counting from `m`: up to and
      including the first one after which the depth is at most 0, or all. */
  function ScanFrom(ts: seq<Token>, m: nat): (n: nat)
    requires m <= |ts|
    ensures m <= n <= |ts|
    decreases |ts| - m
  {
    if m == |ts| then m
    else if NestingAfter(ts[..m + 1]).depth <= 0 then m + 1
    else ScanFrom(ts, m + 1)
  }

  /** The scan from `m` stops at the first token after which the depth is
      at most 0, and passes everything when there is none. */
  lemma {:induction false} ScanFromStops(ts: seq<Token>, m: nat)
    requires m <= |ts|
    ensures forall j :: m < j < ScanFrom(ts, m) ==> NestingAfter(ts[..j]).depth > 0
    ensures ScanFrom(ts, m) == |ts| || NestingAfter(ts[..ScanFrom(ts, m)]).depth <= 0
    decreases |ts| - m
  {
    if m < |ts| && NestingAfter(ts[..m + 1]).depth > 0 {
      ScanFromStops(ts, m + 1);
    }
  }

  /** The number of tokens the scan of a call's arguments passes. */
  function CallLength(ts: seq<Token>): (n: nat)
    ensures n <= |ts|
  {
    ScanFrom(ts, 0)
  }

  /** The depth stays positive before the last token the scan passes, and
      drops to at most 0 at it unless the tokens ran out. */
  lemma CallLengthStops(ts: seq<Token>)
    ensures forall j :: 0 <= j < CallLength(ts) ==> NestingAfter(ts[..j]).depth > 0
    ensures CallLength(ts) == |ts| || NestingAfter(ts[..CallLength(ts)]).depth <= 0
  {
    ScanFromStops(ts, 0);
    assert ts[..0] == [];
  }

  /** Those two conditions pin the length down. */
  lemma CallLengthUnique(ts: seq<Token>, m: nat)
    requires m <= |ts|
    requires forall j :: 0 <= j < m ==> NestingAfter(ts[..j]).depth > 0
    requires m == |ts| || NestingAfter(ts[..m]).depth <= 0
    ensures CallLength(ts) == m
  {
    CallLengthStops(ts);
  }

  /** The tokens from `start` that the scan passes: the call's arguments and
      its closing bracket, or everything left when the call never closes. */
  function CallSpan(tokens: seq<Token>, start: nat): seq<Token>
    requires start <= |tokens|
  {
    var ts := tokens[start..];
    ts[..CallLength(ts)]
  }

  /** Running out of tokens does not reject a call: an unclosed call spans
      every remaining token. */
  lemma UnclosedCallSpansRest(tokens: seq<Token>, start: nat)
    requires start <= |tokens|
    requires forall j :: 0 <= j <= |tokens| - start ==> NestingAfter(tokens[start..][..j]).depth > 0
    ensures CallSpan(tokens, start) == tokens[start..]
  {
    var ts := tokens[start..];
    CallLengthUnique(ts, |ts|);
    assert ts[..|ts|] == ts;
  }

  /** One more token in the inner scan moves the nesting by one step and
      adds its line feeds. */
  lemma SpanStep(ts: seq<Token>, j: nat)
    requires j < |ts|
    ensures NestingAfter(ts[..j + 1]) == Step(NestingAfter(ts[..j]), ts[j])
    ensures Newlines(ts[..j + 1]) == Newlines(ts[..j]) + LineBreaks(ts[j])
  {
    assert ts[..j + 1][..j] == ts[..j];
  }

  /** The inner loop: the line cursor at the end of the call. */
  method ScanCall(tokens: seq<Token>, start: nat, cursor: int) returns (innerCursor: int)
    requires start <= |tokens|
    ensures innerCursor == cursor + Newlines(CallSpan(tokens, start))
  {
    ghost var ts := tokens[start..];
    innerCursor := cursor;
    var depth, offset, inString := 1, start, false;
    while offset < |tokens|
      invariant start <= offset <= |tokens|
      invariant Nesting(depth, inString) == NestingAfter(ts[..offset - start])
      invariant forall j :: 0 <= j <= offset - start ==> NestingAfter(ts[..j]).depth > 0
      invariant innerCursor == cursor + Newlines(ts[..offset - start])
      decreases |tokens| - offset
    {
      var token := tokens[offset];
      SpanStep(ts, offset - start);
      if token.Tok? {
        innerCursor := innerCursor + CountNewlines(token.text);
      }
      if OpensLevel(token) {
        depth := depth + 1;
      } else if ClosesLevel(token) {
        depth := depth - 1;
      } else if token == Ch('"') {
        if inString {
          depth := depth - 1;
        } else {
          depth := depth + 1;
        }
        inString := !inString;
      }
      if depth <= 0 {
        CallLengthUnique(ts, offset - start + 1);
        return;
      }
      offset := offset + 1;
    }
    assert ts[..offset - start] == ts;
    CallLengthUnique(ts, offset - start);
  }

  // ---------------------------------------------------------------------
  // The backward walk over the operators in front of a call (lines 159-184)

  /** The last index at or before `from` whose token is neither ignored nor
      part of a qualified name, or -1: where the first backward loop stops. */
  function QualifierStart(tokens: seq<Token>, from: int): (r: int)
    requires -1 <= from < |tokens|
    ensures -1 <= r <= from
    ensures r >= 0 ==> !Ignored(tokens[r]) && !InQualifiedName(tokens[r])
    ensures forall k :: r < k <= from ==> Ignored(tokens[k]) || InQualifiedName(tokens[k])
    decreases from + 1
  {
    if from < 0 then -1
    else if !Ignored(tokens[from]) && !InQualifiedName(tokens[from]) then from
    else QualifierStart(tokens, from - 1)
  }

  /** The operators the second backward loop collects from `from` down:
      ignored tokens are passed over, modifiers collected (nearest first),
      and the first other token ends the walk. */
  function OperatorsFrom(tokens: seq<Token>, from: int): (r: seq<char>)
    requires -1 <= from < |tokens|
    ensures forall c :: c in r ==> IsModifierSymbol(c)
    ensures |r| <= from + 1
    decreases from + 1
  {
    if from < 0 then []
    else if Ignored(tokens[from]) then OperatorsFrom(tokens, from - 1)
    else if IsModifier(tokens[from]) then [tokens[from].c] + OperatorsFrom(tokens, from - 1)
    else []
  }

  /** The second backward loop collects exactly the operator tokens of the
      run of ignored and operator tokens ending at `from`, and stops at the
      first other token, `stop`, or at the start of the file. */
  lemma {:induction false} OperatorsFromExact(tokens: seq<Token>, from: int) returns (stop: int)
    requires -1 <= from < |tokens|
    ensures -1 <= stop <= from
    ensures stop >= 0 ==> !Ignored(tokens[stop]) && !IsModifier(tokens[stop])
    ensures forall k :: stop < k <= from ==> Ignored(tokens[k]) || IsModifier(tokens[k])
    ensures forall c :: c in OperatorsFrom(tokens, from)
                      <==> exists k :: stop < k <= from && tokens[k] == Ch(c) && IsModifierSymbol(c)
    decreases from + 1
  {
    if from < 0 {
      stop := -1;
    } else if Ignored(tokens[from]) {
      stop := OperatorsFromExact(tokens, from - 1);
      assert !IsModifier(tokens[from]);
    } else if IsModifier(tokens[from]) {
      stop := OperatorsFromExact(tokens, from - 1);
    } else {
      stop := from;
    }
  }

  /** The operators written in front of the call whose name is at `i`. */
  function CallOperators(tokens: seq<Token>, i: nat): seq<char>
    requires i < |tokens|
  {
    OperatorsFrom(tokens, QualifierStart(tokens, i - 1))
  }

  /** The operators reported for a call are exactly the operator tokens
      between the start of its qualified name, `q`, and the first token
      before it that is neither ignored nor an operator, `stop`. */
  lemma CallOperatorsExact(tokens: seq<Token>, i: nat) returns (q: int, stop: int)
    requires i < |tokens|
    ensures q == QualifierStart(tokens, i - 1)
    ensures forall k :: q < k < i ==> Ignored(tokens[k]) || InQualifiedName(tokens[k])
    ensures -1 <= stop <= q
    ensures stop >= 0 ==> !Ignored(tokens[stop]) && !IsModifier(tokens[stop])
    ensures forall k :: stop < k <= q ==> Ignored(tokens[k]) || IsModifier(tokens[k])
    ensures forall c :: c in CallOperators(tokens, i)
                      <==> exists k :: stop < k <= q && tokens[k] == Ch(c) && IsModifierSymbol(c)
  {
    q := QualifierStart(tokens, i - 1);
    stop := OperatorsFromExact(tokens, q);
  }

  method ModifiersBefore(tokens: seq<Token>, i: nat) returns (mods: seq<char>)
    requires i < |tokens|
    ensures mods == CallOperators(tokens, i)
  {
    var index := i - 1;
    while 0 <= index
      invariant -1 <= index < i
      invariant QualifierStart(tokens, index) == QualifierStart(tokens, i - 1)
      decreases index + 1
    {
      if !Ignored(tokens[index]) && !InQualifiedName(tokens[index]) {
        break;
      }
      index := index - 1;
    }
    ghost var stop := index;
    mods := [];
    while 0 <= index
      invariant -1 <= index <= stop
      invariant mods + OperatorsFrom(tokens, index) == OperatorsFrom(tokens, stop)
      decreases index + 1
    {
      if Ignored(tokens[index]) {
        index := index - 1;
        continue;
      }
      if IsModifier(tokens[index]) {
        assert mods + [tokens[index].c] + OperatorsFrom(tokens, index - 1)
            == mods + ([tokens[index].c] + OperatorsFrom(tokens, index - 1));
        mods := mods + [tokens[index].c];
        index := index - 1;
        continue;
      }
      break;
    }
  }

  // ---------------------------------------------------------------------
  // The outer scan (lines 48-190)

  /** The significant tokens of `ts`, in order: what the three-slot window
      `$prevTokens` is filled from. */
  function Significants(ts: seq<Token>): (r: seq<Token>)
    ensures |r| <= |ts|
  {
    if ts == [] then []
    else Significants(ts[..|ts| - 1]) + (if Significant(ts[|ts| - 1]) then [ts[|ts| - 1]] else [])
  }

  /** Only significant tokens enter the window. */
  lemma {:induction false} SignificantsAreSignificant(ts: seq<Token>)
    ensures forall k :: 0 <= k < |Significants(ts)| ==> Significant(Significants(ts)[k])
  {
    if ts != [] {
      SignificantsAreSignificant(ts[..|ts| - 1]);
    }
  }

  /** The element `k` places from the end of `s`: slot `2 - k` of the window. */
  function FromEnd(s: seq<Token>, k: nat): (r: Option<Token>)
    ensures r.Some? <==> k < |s|
    ensures r.Some? ==> r.value == s[|s| - 1 - k]
  {
    if k < |s| then Some(s[|s| - 1 - k]) else None
  }

  /** The line cursor once token `i` has been counted. */
  function CursorAt(tokens: seq<Token>, i: nat): int
    requires i < |tokens|
  {
    1 + Newlines(tokens[..i + 1])
  }

  /** Lines 98-110: the significant tokens in front of a candidate fit the
      signature. */
  predicate ShapeMatches(cls: Option<string>, before: seq<Token>) {
    var prev := FromEnd(before, 0);
    var older := FromEnd(before, 1);
    match cls
    case None =>
      !(prev.Some? && prev.value.Tok? && prev.value.kind in {DoubleColon, ObjectOperator})
    case Some(c) =>
      prev.Some? && prev.value.Tok? && prev.value.kind == DoubleColon
      && older.Some? && older.value.Tok? && older.value.kind == String && Lower(older.value.text) == c
  }

  /** Token `i` is a call of the target that the scan accepts: a name token
      before the cut-off line, equal to the target's name, followed by `(`,
      preceded by what the signature asks for, and whose call reaches `line`. */
  predicate Accepted(tokens: seq<Token>, line: int, target: Target, i: nat)
    requires i < |tokens|
  {
    var t := tokens[i];
    var next := NextReal(tokens, i);
    && t.Tok? && t.kind == String
    && CursorAt(tokens, i) <= line
    && Lower(t.text) == target.name
    && next.Some? && tokens[next.value] == Ch('(')
    && ShapeMatches(target.cls, Significants(tokens[..i]))
    && line <= CursorAt(tokens, i) + Newlines(CallSpan(tokens, next.value + 1))
  }

  /** The lists `ops(i)` of the positions `i < n` that `accepted` picks, in
      position order: how `$modifiersUsed` grows, one candidate at a time. */
  function Collect(accepted: nat -> bool, ops: nat -> seq<char>, n: nat): seq<seq<char>> {
    if n == 0 then []
    else Collect(accepted, ops, n - 1) + (if accepted(n - 1) then [ops(n - 1)] else [])
  }

  /** Acceptance as a function of the position; no position past the end
      is accepted. */
  function AcceptedIn(tokens: seq<Token>, line: int, target: Target): nat -> bool {
    (i: nat) => i < |tokens| && Accepted(tokens, line, target, i)
  }

  /** The operators in front of each position. */
  function OperatorsIn(tokens: seq<Token>): nat -> seq<char> {
    (i: nat) => if i < |tokens| then CallOperators(tokens, i) else []
  }

  /** `$modifiersUsed`: the operator lists of the accepted calls among the
      first `n` tokens, in token order. */
  function AcceptedCalls(tokens: seq<Token>, line: int, target: Target, n: nat): seq<seq<char>>
    requires n <= |tokens|
  {
    Collect(AcceptedIn(tokens, line, target), OperatorsIn(tokens), n)
  }

  /** What `getModifiersUsed` returns: the duplicate-free union of the
      operators in front of every accepted call. */
  function ModifiersUsed(tokens: seq<Token>, line: int, sig: Signature): (r: seq<char>)
    ensures NoDuplicates(r)
    ensures forall k :: 0 <= k < |r| ==> IsModifierSymbol(r[k])
  {
    var calls := AcceptedCalls(tokens, line, TargetOf(sig), |tokens|);
    var r := Unique(Flatten(calls));
    forall k | 0 <= k < |r| ensures IsModifierSymbol(r[k]) {
      assert r[k] in Flatten(calls);
      var j :| 0 <= j < |calls| && r[k] in calls[j];
      AcceptedCallsMembers(tokens, line, TargetOf(sig), |tokens|, calls[j]);
    }
    r
  }

  /** The shape test read off the two window slots, as lines 98-110 do. */
  lemma WindowShape(cls: Option<string>, before: seq<Token>, older: Option<Token>, prev: Option<Token>)
    requires forall k :: 0 <= k < |before| ==> Significant(before[k])
    requires older == FromEnd(before, 1) && prev == FromEnd(before, 0)
    ensures prev.Some? ==> prev.value.Tok?
    ensures older.Some? ==> older.value.Tok?
    ensures cls.None? ==>
              (ShapeMatches(cls, before) <==> !(prev.Some? && prev.value.kind in {DoubleColon, ObjectOperator}))
    ensures cls.Some? ==>
              (ShapeMatches(cls, before) <==>
                 prev.Some? && prev.value.kind == DoubleColon
                 && older.Some? && older.value.kind == String && Lower(older.value.text) == cls.value)
  {
    if prev.Some? {
      assert Significant(before[|before| - 1]);
    }
    if older.Some? {
      assert Significant(before[|before| - 2]);
    }
  }

  /** Lines 86-186 for one name token: the checks that make it an accepted
      call, and if it is one, the operators in front of it. `older` and
      `prev` are the window slots `$prevTokens[0]` and `$prevTokens[1]`. */
  method AcceptCandidate(tokens: seq<Token>, line: int, target: Target, index: nat, cursor: int,
                         older: Option<Token>, prev: Option<Token>)
      returns (mods: Option<seq<char>>)
    requires index < |tokens| && Significant(tokens[index])
    requires cursor == CursorAt(tokens, index) && cursor <= line
    requires older == FromEnd(Significants(tokens[..index]), 1)
    requires prev == FromEnd(Significants(tokens[..index]), 0)
    ensures mods.Some? <==> Accepted(tokens, line, target, index)
    ensures mods.Some? ==> mods.value == CallOperators(tokens, index)
  {
    var token := tokens[index];
    if token.kind != String || Lower(token.text) != target.name {
      return None;
    }
    var nextReal := RealTokenIndex(tokens, index);
    if nextReal.None? || tokens[nextReal.value] != Ch('(') {
      return None;
    }
    SignificantsAreSignificant(tokens[..index]);
    WindowShape(target.cls, Significants(tokens[..index]), older, prev);
    if target.cls.None? {
      if prev.Some? && prev.value.kind in {DoubleColon, ObjectOperator} {
        return None;
      }
    } else {
      if prev.None? || prev.value.kind != DoubleColon {
        return None;
      }
      if older.None? || older.value.kind != String || Lower(older.value.text) != target.cls.value {
        return None;
      }
    }
    var innerCursor := ScanCall(tokens, nextReal.value + 1, cursor);
    if innerCursor < line {
      return None;
    }
    var operators := ModifiersBefore(tokens, index);
    return Some(operators);
  }

  /** Pushing a token into the window shifts the other slots by one. */
  lemma WindowPush(s: seq<Token>, t: Token)
    ensures FromEnd(s + [t], 0) == Some(t)
    ensures FromEnd(s + [t], 1) == FromEnd(s, 0) && FromEnd(s + [t], 2) == FromEnd(s, 1)
  {
  }

  /** One more token in the scan: the line count, the window of
      significant tokens and the accepted calls each grow by that token's
      share. */
  lemma ScanStep(tokens: seq<Token>, line: int, target: Target, i: nat)
    requires i < |tokens|
    ensures Newlines(tokens[..i + 1]) == Newlines(tokens[..i]) + LineBreaks(tokens[i])
    ensures !Significant(tokens[i]) ==> Significants(tokens[..i + 1]) == Significants(tokens[..i])
    ensures Significant(tokens[i]) ==> Significants(tokens[..i + 1]) == Significants(tokens[..i]) + [tokens[i]]
    ensures !Significant(tokens[i]) ==> !Accepted(tokens, line, target, i)
    ensures AcceptedCalls(tokens, line, target, i + 1)
         == AcceptedCalls(tokens, line, target, i)
            + (if Accepted(tokens, line, target, i) then [CallOperators(tokens, i)] else [])
  {
    assert tokens[..i + 1][..i] == tokens[..i];
  }

  method GetModifiersUsed(tokens: seq<Token>, line: int, signature: Signature) returns (used: seq<char>)
    ensures used == ModifiersUsed(tokens, line, signature)
  {
    var target := TargetOf(signature);
    var cursor := 1;
    var modifiersUsed: seq<seq<char>> := [];
    var older, prev, last: Option<Token> := None, None, None;
    for index := 0 to |tokens|
      invariant cursor == 1 + Newlines(tokens[..index])
      invariant older == FromEnd(Significants(tokens[..index]), 2)
      invariant prev == FromEnd(Significants(tokens[..index]), 1)
      invariant last == FromEnd(Significants(tokens[..index]), 0)
      invariant modifiersUsed == AcceptedCalls(tokens, line, target, index)
    {
      var token := tokens[index];
      ScanStep(tokens, line, target, index);
      if !token.Tok? {
        continue;
      }
      cursor := cursor + CountNewlines(token.text);
      if cursor > line {
        CutoffIsFinal(tokens, line, target, index, |tokens|);
        break;
      }
      if Ignored(token) {
        continue;
      }
      WindowPush(Significants(tokens[..index]), token);
      older, prev, last := prev, last, Some(token);
      var mods := AcceptCandidate(tokens, line, target, index, cursor, older, prev);
      if mods.Some? {
        modifiersUsed := modifiersUsed + [mods.value];
      }
    }
    used := Unique(Flatten(modifiersUsed));
  }

  // ---------------------------------------------------------------------
  // Properties of the scan

  /** A list is collected from exactly the positions picked. */
  lemma {:induction false} CollectMembers(accepted: nat -> bool, ops: nat -> seq<char>, n: nat, x: seq<char>)
    ensures x in Collect(accepted, ops, n) <==> exists i :: 0 <= i < n && accepted(i) && x == ops(i)
  {
    if n > 0 {
      CollectMembers(accepted, ops, n - 1, x);
    }
  }

  /** Positions that are not picked add nothing. */
  lemma {:induction false} CollectNoneFrom(accepted: nat -> bool, ops: nat -> seq<char>, i: nat, n: nat)
    requires i <= n
    requires forall j :: i <= j < n ==> !accepted(j)
    ensures Collect(accepted, ops, n) == Collect(accepted, ops, i)
    decreases n
  {
    if n > i {
      CollectNoneFrom(accepted, ops, i, n - 1);
    }
  }

  /** With a single picked position, its list is all that is collected. */
  lemma {:induction false} CollectOne(accepted: nat -> bool, ops: nat -> seq<char>, i: nat, n: nat)
    requires accepted(i)
    requires forall j :: 0 <= j < n && j != i ==> !accepted(j)
    ensures Collect(accepted, ops, n) == if i < n then [ops(i)] else []
  {
    if n > 0 {
      CollectOne(accepted, ops, i, n - 1);
    }
  }

  /** Once the line cursor has passed `line`, no later token is accepted:
      the scan may stop there. */
  lemma CutoffIsFinal(tokens: seq<Token>, line: int, target: Target, i: nat, n: nat)
    requires i <= n <= |tokens|
    requires i < |tokens| && CursorAt(tokens, i) > line
    ensures AcceptedCalls(tokens, line, target, n) == AcceptedCalls(tokens, line, target, i)
  {
    forall j | i <= j < n ensures !AcceptedIn(tokens, line, target)(j) {
      AcceptedBeforeCutoff(tokens, line, target, i, j);
    }
    CollectNoneFrom(AcceptedIn(tokens, line, target), OperatorsIn(tokens), i, n);
  }

  /** The accepted calls are exactly the operator lists of the accepted
      candidates. */
  lemma AcceptedCallsMembers(tokens: seq<Token>, line: int, target: Target, n: nat, x: seq<char>)
    requires n <= |tokens|
    ensures x in AcceptedCalls(tokens, line, target, n)
        <==> exists i :: 0 <= i < n && Accepted(tokens, line, target, i) && x == CallOperators(tokens, i)
  {
    var accepted, ops := AcceptedIn(tokens, line, target), OperatorsIn(tokens);
    CollectMembers(accepted, ops, n, x);
    if x in AcceptedCalls(tokens, line, target, n) {
      var i :| 0 <= i < n && accepted(i) && x == ops(i);
      assert Accepted(tokens, line, target, i) && x == CallOperators(tokens, i);
    }
    if exists i :: 0 <= i < n && Accepted(tokens, line, target, i) && x == CallOperators(tokens, i) {
      var i :| 0 <= i < n && Accepted(tokens, line, target, i) && x == CallOperators(tokens, i);
      assert accepted(i) && x == ops(i);
    }
  }

  /** A reported operator stands in front of some accepted call. */
  lemma ReportedHasCall(tokens: seq<Token>, line: int, sig: Signature, c: char) returns (i: nat)
    requires c in ModifiersUsed(tokens, line, sig)
    ensures i < |tokens| && Accepted(tokens, line, TargetOf(sig), i) && c in CallOperators(tokens, i)
  {
    var calls := AcceptedCalls(tokens, line, TargetOf(sig), |tokens|);
    assert c in Flatten(calls);
    var j :| 0 <= j < |calls| && c in calls[j];
    AcceptedCallsMembers(tokens, line, TargetOf(sig), |tokens|, calls[j]);
    i :| 0 <= i < |tokens| && Accepted(tokens, line, TargetOf(sig), i) && calls[j] == CallOperators(tokens, i);
  }

  /** Every operator in front of an accepted call is reported. */
  lemma CallIsReported(tokens: seq<Token>, line: int, sig: Signature, c: char, i: nat)
    requires i < |tokens| && Accepted(tokens, line, TargetOf(sig), i) && c in CallOperators(tokens, i)
    ensures c in ModifiersUsed(tokens, line, sig)
  {
    var calls := AcceptedCalls(tokens, line, TargetOf(sig), |tokens|);
    AcceptedCallsMembers(tokens, line, TargetOf(sig), |tokens|, CallOperators(tokens, i));
    var j :| 0 <= j < |calls| && calls[j] == CallOperators(tokens, i);
    assert c in Flatten(calls);
  }

  /** An operator is reported exactly when it stands in front of some
      accepted call of the signature. */
  lemma ModifiersUsedMembers(tokens: seq<Token>, line: int, sig: Signature, c: char)
    ensures c in ModifiersUsed(tokens, line, sig)
        <==> exists i :: 0 <= i < |tokens| && Accepted(tokens, line, TargetOf(sig), i)
                         && c in CallOperators(tokens, i)
  {
    if c in ModifiersUsed(tokens, line, sig) {
      var i := ReportedHasCall(tokens, line, sig, c);
    }
    if exists i :: 0 <= i < |tokens| && Accepted(tokens, line, TargetOf(sig), i) && c in CallOperators(tokens, i) {
      var i :| 0 <= i < |tokens| && Accepted(tokens, line, TargetOf(sig), i) && c in CallOperators(tokens, i);
      CallIsReported(tokens, line, sig, c, i);
    }
  }

  /** Without an accepted call the result is empty. */
  lemma NoAcceptedCallNoModifiers(tokens: seq<Token>, line: int, sig: Signature)
    requires forall i :: 0 <= i < |tokens| ==> !Accepted(tokens, line, TargetOf(sig), i)
    ensures ModifiersUsed(tokens, line, sig) == []
  {
    var r := ModifiersUsed(tokens, line, sig);
    if r != [] {
      ModifiersUsedMembers(tokens, line, sig, r[0]);
    }
  }

  /** No call whose name lies beyond the cut-off line is ever accepted. */
  lemma AcceptedBeforeCutoff(tokens: seq<Token>, line: int, target: Target, i: nat, j: nat)
    requires i <= j < |tokens|
    requires CursorAt(tokens, i) > line
    ensures !Accepted(tokens, line, target, j)
  {
    NewlinesMonotone(tokens, i + 1, j + 1);
  }

  /** The window slot in front of a name is the last significant token:
      the index of that token, with everything after it insignificant. */
  lemma {:induction false} LastSignificant(ts: seq<Token>) returns (j: nat)
    requires Significants(ts) != []
    ensures j < |ts| && Significant(ts[j])
    ensures Significants(ts) == Significants(ts[..j]) + [ts[j]]
    ensures forall m :: j < m < |ts| ==> !Significant(ts[m])
  {
    var init := ts[..|ts| - 1];
    if Significant(ts[|ts| - 1]) {
      j := |ts| - 1;
      assert ts[..j] == init;
    } else {
      j := LastSignificant(init);
      assert ts[..j] == init[..j];
    }
  }

  /** A significant token followed only by insignificant ones is the last
      significant token. */
  lemma {:induction false} SignificantsEndWith(ts: seq<Token>, j: nat)
    requires j < |ts| && Significant(ts[j])
    requires forall m :: j < m < |ts| ==> !Significant(ts[m])
    ensures Significants(ts) == Significants(ts[..j]) + [ts[j]]
    decreases |ts|
  {
    var init := ts[..|ts| - 1];
    if j < |ts| - 1 {
      SignificantsEndWith(init, j);
      assert init[..j] == ts[..j];
    } else {
      assert init == ts[..j];
    }
  }

  /** A bare function signature never matches a name written right after
      `::` or `->`: `Bar::foo()` and `$x->foo()` are not calls of `foo`. */
  lemma QualifiedNameIsNotFunction(tokens: seq<Token>, line: int, name: string, i: nat, j: nat)
    requires j < i < |tokens|
    requires tokens[j].Tok? && tokens[j].kind in {DoubleColon, ObjectOperator}
    requires forall m :: j < m < i ==> !Significant(tokens[m])
    ensures !Accepted(tokens, line, Target(None, name), i)
  {
    SignificantsEndWith(tokens[..i], j);
  }

  /** A class signature only matches a name preceded (over insignificant
      tokens) by `::` and, before that, the class's short name. */
  lemma StaticCallShape(tokens: seq<Token>, line: int, cls: string, name: string, i: nat)
      returns (j1: nat, j2: nat)
    requires i < |tokens| && Accepted(tokens, line, Target(Some(cls), name), i)
    ensures j1 < j2 < i
    ensures tokens[j2].Tok? && tokens[j2].kind == DoubleColon
    ensures tokens[j1].Tok? && tokens[j1].kind == String && Lower(tokens[j1].text) == cls
    ensures forall m :: j1 < m < i && m != j2 ==> !Significant(tokens[m])
  {
    var before := tokens[..i];
    j2 := LastSignificant(before);
    var front := before[..j2];
    j1 := LastSignificant(front);
    assert front[j1] == tokens[j1];
    forall m | j1 < m < i && m != j2 ensures !Significant(tokens[m]) {
      if m < j2 {
        assert front[m] == tokens[m];
      } else {
        assert before[m] == tokens[m];
      }
    }
  }

  /** When a single candidate is accepted, the accepted calls are its
      operator list alone. */
  lemma SingleAcceptedCall(tokens: seq<Token>, line: int, target: Target, i: nat, n: nat)
    requires i < |tokens| && n <= |tokens|
    requires Accepted(tokens, line, target, i)
    requires forall j :: 0 <= j < |tokens| && j != i ==> !Accepted(tokens, line, target, j)
    ensures AcceptedCalls(tokens, line, target, n) == if i < n then [CallOperators(tokens, i)] else []
  {
    CollectOne(AcceptedIn(tokens, line, target), OperatorsIn(tokens), i, n);
  }

  /** When the accepted calls are a single list of distinct operators, that
      list is the answer: `array_merge` and `array_unique` leave it as it is. */
  lemma SingleCallReported(tokens: seq<Token>, line: int, sig: Signature, ops: seq<char>)
    requires AcceptedCalls(tokens, line, TargetOf(sig), |tokens|) == [ops]
    requires NoDuplicates(ops)
    ensures ModifiersUsed(tokens, line, sig) == ops
  {
    UniqueOfSingle(ops);
  }
}
