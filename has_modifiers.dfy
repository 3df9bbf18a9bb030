/** The queries a class answers about the operators its caller wrote in front
    of the call: which stack frame is the call, where that call is written,
    and whether given operators are among those used (src/HasModifiers.php). */
module HasModifiers {
  import opened Php
  import opened Tokens
  import opened CallFinder
  import opened Utils

  /** `getModifierAliases`: the class's declared alias list, or nothing when
      it declares none. */
  function GetModifierAliases(declared: Option<seq<Value>>): (r: seq<Value>)
    ensures declared.Some? ==> r == declared.value
    ensures declared.None? ==> r == []
  {
    if declared.Some? then declared.value else []
  }

  // ---------------------------------------------------------------------
  // Frame selection (src/HasModifiers.php:60-84)

  /** A frame that goes onto the working list: everything but a class-less
      `spl_autoload_call` frame. */
  predicate Kept(f: Frame) {
    CalledAs(f) != Name("spl_autoload_call")
  }

  /** `Kept` is the test of src/HasModifiers.php:74: exactly the class-less
      frames whose function is `spl_autoload_call`, in any case, match the
      one-entry list and are left off the working list. */
  lemma AutoloadFrames(f: Frame)
    ensures Kept(f) <==> !TraceFrameIsListed(f, [Name("spl_autoload_call")])
    ensures !Kept(f) <==> f.cls.None? && Lower(FunctionName(f)) == "spl_autoload_call"
  {
  }

  /** The frames of `frames` that satisfy `keep`, in order: the working
      list built from them when `keep` is `Kept`. */
  function KeptFrames(frames: seq<Frame>, keep: Frame -> bool): (r: seq<Frame>)
    ensures |r| <= |frames|
    ensures forall k :: 0 <= k < |r| ==> keep(r[k])
  {
    if frames == [] then []
    else
      var last := frames[|frames| - 1];
      KeptFrames(frames[..|frames| - 1], keep) + (if keep(last) then [last] else [])
  }

  /** The position of the last frame that matches an alias, if any. */
  function LastListed(trace: seq<Frame>, aliases: seq<Alias>): (r: Option<nat>)
    ensures r.Some? ==> r.value < |trace|
  {
    if trace == [] then None
    else if TraceFrameIsListed(trace[|trace| - 1], aliases) then Some(|trace| - 1)
    else LastListed(trace[..|trace| - 1], aliases)
  }

  /** The position found matches an alias and no later frame does; there is
      none exactly when no frame matches. */
  lemma {:induction false} LastListedIsLast(trace: seq<Frame>, aliases: seq<Alias>)
    ensures LastListed(trace, aliases).Some? ==> TraceFrameIsListed(trace[LastListed(trace, aliases).value], aliases)
    ensures LastListed(trace, aliases).Some? ==>
              forall k :: LastListed(trace, aliases).value < k < |trace| ==> !TraceFrameIsListed(trace[k], aliases)
    ensures LastListed(trace, aliases).None? <==> forall k :: 0 <= k < |trace| ==> !TraceFrameIsListed(trace[k], aliases)
  {
    if trace != [] && !TraceFrameIsListed(trace[|trace| - 1], aliases) {
      var init := trace[..|trace| - 1];
      LastListedIsLast(init, aliases);
      assert forall k :: 0 <= k < |init| ==> init[k] == trace[k];
    }
  }

  /** `$callee`: the first kept frame from the last matching frame on, or
      none when no frame matches or none is kept. */
  function Selected(trace: seq<Frame>, aliases: seq<Alias>): Option<Frame> {
    match LastListed(trace, aliases)
    case None => None
    case Some(j) =>
      var kept := KeptFrames(trace[j..], Kept);
      if kept == [] then None else Some(kept[0])
  }

  /** The first element of `KeptFrames(frames, keep)` is the first frame
      that satisfies `keep`. */
  lemma {:induction false} FirstKept(frames: seq<Frame>, keep: Frame -> bool) returns (k: nat)
    requires KeptFrames(frames, keep) != []
    ensures k < |frames| && keep(frames[k]) && KeptFrames(frames, keep)[0] == frames[k]
    ensures forall m :: 0 <= m < k ==> !keep(frames[m])
  {
    var init := frames[..|frames| - 1];
    var last := frames[|frames| - 1];
    assert KeptFrames(frames, keep) == KeptFrames(init, keep) + (if keep(last) then [last] else []);
    if KeptFrames(init, keep) == [] {
      NoneKept(init, keep);
      k := |frames| - 1;
      assert forall m :: 0 <= m < k ==> frames[m] == init[m];
    } else {
      k := FirstKept(init, keep);
      assert forall m :: 0 <= m <= k ==> frames[m] == init[m];
    }
  }

  /** An empty list means that no frame satisfied `keep`. */
  lemma {:induction false} NoneKept(frames: seq<Frame>, keep: Frame -> bool)
    requires KeptFrames(frames, keep) == []
    ensures forall m :: 0 <= m < |frames| ==> !keep(frames[m])
  {
    if frames != [] {
      var init := frames[..|frames| - 1];
      var last := frames[|frames| - 1];
      assert KeptFrames(frames, keep) == KeptFrames(init, keep) + (if keep(last) then [last] else []);
      NoneKept(init, keep);
      forall m | 0 <= m < |frames| ensures !keep(frames[m]) {
        if m < |init| {
          assert init[m] == frames[m];
        }
      }
    }
  }

  /** A frame that satisfies `keep` makes the list non-empty. */
  lemma {:induction false} SomeKept(frames: seq<Frame>, keep: Frame -> bool, m: nat)
    requires m < |frames| && keep(frames[m])
    ensures KeptFrames(frames, keep) != []
  {
    var init := frames[..|frames| - 1];
    if m < |frames| - 1 {
      SomeKept(init, keep, m);
    }
  }

  /** The head of the list built from `trace[j..]` is the first frame at or
      after `j` that satisfies `keep`. */
  lemma FirstKeptFrom(trace: seq<Frame>, keep: Frame -> bool, j: nat) returns (k: nat)
    requires j <= |trace| && KeptFrames(trace[j..], keep) != []
    ensures j <= k < |trace| && keep(trace[k]) && KeptFrames(trace[j..], keep)[0] == trace[k]
    ensures forall m :: j <= m < k ==> !keep(trace[m])
  {
    var rest := trace[j..];
    var i := FirstKept(rest, keep);
    k := j + i;
    assert rest[i] == trace[k];
    forall m | j <= m < k ensures !keep(trace[m]) {
      assert rest[m - j] == trace[m];
    }
  }

  /** The selected frame is the first kept frame at or after the last
      matching frame: never one before it, never an autoload frame. */
  lemma SelectedFrame(trace: seq<Frame>, aliases: seq<Alias>) returns (k: nat)
    requires Selected(trace, aliases).Some?
    ensures LastListed(trace, aliases).Some?
    ensures LastListed(trace, aliases).value <= k < |trace|
    ensures Selected(trace, aliases) == Some(trace[k]) && Kept(trace[k])
    ensures forall m :: LastListed(trace, aliases).value <= m < k ==> !Kept(trace[m])
  {
    var j := LastListed(trace, aliases).value;
    k := FirstKeptFrom(trace, Kept, j);
  }

  /** The last matching frame is itself selected unless it is an autoload
      frame. */
  lemma AnchorSelected(trace: seq<Frame>, aliases: seq<Alias>, j: nat)
    requires LastListed(trace, aliases) == Some(j) && Kept(trace[j])
    ensures Selected(trace, aliases) == Some(trace[j])
  {
    var rest := trace[j..];
    assert rest[0] == trace[j];
    SomeKept(rest, Kept, 0);
    var i := FirstKept(rest, Kept);
    assert i == 0;
  }

  /** When no frame matches an alias, no frame is selected. */
  lemma NoListedFrameNoneSelected(trace: seq<Frame>, aliases: seq<Alias>)
    requires forall k :: 0 <= k < |trace| ==> !TraceFrameIsListed(trace[k], aliases)
    ensures Selected(trace, aliases).None?
  {
    LastListedIsLast(trace, aliases);
  }

  /** One more frame either becomes the last matching one or leaves the
      last matching one as it was. */
  lemma LastListedStep(trace: seq<Frame>, aliases: seq<Alias>, k: nat)
    requires k < |trace|
    ensures LastListed(trace[..k + 1], aliases)
         == if TraceFrameIsListed(trace[k], aliases) then Some(k) else LastListed(trace[..k], aliases)
  {
    assert trace[..k + 1][..k] == trace[..k];
  }

  /** One more frame goes onto the list exactly when it satisfies `keep`. */
  lemma KeptFramesStep(trace: seq<Frame>, keep: Frame -> bool, anchor: nat, k: nat)
    requires anchor <= k < |trace|
    ensures KeptFrames(trace[anchor..k + 1], keep)
         == KeptFrames(trace[anchor..k], keep) + (if keep(trace[k]) then [trace[k]] else [])
  {
    var frames := trace[anchor..k + 1];
    assert frames[..|frames| - 1] == trace[anchor..k];
    assert frames[|frames| - 1] == trace[k];
  }

  /** What the loop leaves behind determines the callee. */
  lemma SelectedAfterLoop(trace: seq<Frame>, aliases: seq<Alias>, found: bool, anchor: nat,
                          miniTrace: seq<Frame>)
    requires found <==> LastListed(trace, aliases).Some?
    requires found ==> anchor == LastListed(trace, aliases).value
    requires anchor <= |trace| && miniTrace == KeptFrames(trace[anchor..], Kept)
    ensures Selected(trace, aliases) == if found && miniTrace != [] then Some(miniTrace[0]) else None
  {
  }

  /** The loop of src/HasModifiers.php:62-81: `$found` is raised and the
      working list cleared at each matching frame, and every kept frame is
      appended; the callee is the head of the final list. */
  method SelectCallee(trace: seq<Frame>, aliases: seq<Alias>) returns (callee: Option<Frame>)
    ensures callee == Selected(trace, aliases)
  {
    var found := false;
    var miniTrace: seq<Frame> := [];
    ghost var anchor := 0;
    for k := 0 to |trace|
      invariant found <==> LastListed(trace[..k], aliases).Some?
      invariant found ==> anchor == LastListed(trace[..k], aliases).value
      invariant anchor <= k
      invariant miniTrace == KeptFrames(trace[anchor..k], Kept)
    {
      var frame := trace[k];
      LastListedStep(trace, aliases, k);
      if TraceFrameIsListed(frame, aliases) {
        found := true;
        miniTrace := [];
        anchor := k;
        assert trace[anchor..k] == [];
      }
      KeptFramesStep(trace, Kept, anchor, k);
      if Kept(frame) {
        miniTrace := miniTrace + [frame];
      }
    }
    assert trace[..|trace|] == trace;
    assert trace[anchor..|trace|] == trace[anchor..];
    SelectedAfterLoop(trace, aliases, found, anchor, miniTrace);
    if found && miniTrace != [] {
      callee := Some(miniTrace[0]);
    } else {
      callee := None;
    }
  }

  // ---------------------------------------------------------------------
  // getSingleCall (src/HasModifiers.php:93-112)

  /** The frame handed on when nothing is selected: `getSingleCall([])`. */
  const NoFrame := Frame(None, None, None, None)

  /** Where a call is written and what it calls. */
  datatype CallSite = CallSite(tokens: seq<Token>, line: int, signature: Signature)

  /** The guard and the signature of `getSingleCall`. `files` maps each
      readable path to the tokens of its contents. */
  function CallSiteOf(f: Frame, files: map<string, seq<Token>>): (r: Option<CallSite>)
    ensures r.Some? <==> f.file.Some? && f.line.Some? && f.func.Some? && f.file.value in files
    ensures r.Some? ==> r.value.tokens == files[f.file.value] && r.value.line == f.line.value
    ensures r.Some? && PhpEmpty(f.cls) ==> r.value.signature == Function(f.func.value)
    ensures r.Some? && !PhpEmpty(f.cls) ==> r.value.signature == StaticMethod(f.cls.value, f.func.value)
  {
    if f.file.None? || f.line.None? || f.func.None? || f.file.value !in files then None
    else
      var signature := if PhpEmpty(f.cls) then Function(f.func.value) else StaticMethod(f.cls.value, f.func.value);
      Some(CallSite(files[f.file.value], f.line.value, signature))
  }

  /** What `getSingleCall` returns: the operators used at the call site, or
      null (`None`) when there is no call site. */
  function SingleCall(f: Frame, files: map<string, seq<Token>>): (r: Option<seq<char>>)
    ensures r.Some? <==> CallSiteOf(f, files).Some?
    ensures r.Some? ==> forall k :: 0 <= k < |r.value| ==> IsModifierSymbol(r.value[k])
  {
    match CallSiteOf(f, files)
    case None => None
    case Some(site) => Some(ModifiersUsed(site.tokens, site.line, site.signature))
  }

  method GetSingleCall(f: Frame, files: map<string, seq<Token>>) returns (r: Option<seq<char>>)
    ensures r == SingleCall(f, files)
  {
    if f.file.None? || f.line.None? || f.func.None? || f.file.value !in files {
      return None;
    }
    var callfunc;
    if PhpEmpty(f.cls) {
      callfunc := Function(f.func.value);
    } else {
      callfunc := StaticMethod(f.cls.value, f.func.value);
    }
    var calls := GetModifiersUsed(files[f.file.value], f.line.value, callfunc);
    return Some(calls);
  }

  // ---------------------------------------------------------------------
  // getCallInfo and getModifiers (src/HasModifiers.php:42-84)

  /** The frame `getCallInfo` passes on. */
  function CalleeOrNoFrame(trace: seq<Frame>, declared: Option<seq<Value>>): Frame {
    var selected := Selected(trace, Normalized(GetModifierAliases(declared)));
    if selected.Some? then selected.value else NoFrame
  }

  /** The operators the call was written with, as `getModifiers` reports them:
      `[]` when no call could be determined. */
  function ModifiersFor(trace: seq<Frame>, declared: Option<seq<Value>>,
                        files: map<string, seq<Token>>): (r: seq<char>)
    ensures NoDuplicates(r)
    ensures forall k :: 0 <= k < |r| ==> IsModifierSymbol(r[k])
  {
    match SingleCall(CalleeOrNoFrame(trace, declared), files)
    case None => []
    case Some(used) => used
  }

  method GetCallInfo(trace: seq<Frame>, declared: Option<seq<Value>>, files: map<string, seq<Token>>)
      returns (r: Option<seq<char>>)
    ensures r == SingleCall(CalleeOrNoFrame(trace, declared), files)
  {
    var aliases := NormalizeAliases(GetModifierAliases(declared));
    var callee := SelectCallee(trace, aliases);
    var frame := if callee.Some? then callee.value else NoFrame;
    r := GetSingleCall(frame, files);
  }

  method GetModifiers(trace: seq<Frame>, declared: Option<seq<Value>>, files: map<string, seq<Token>>)
      returns (modifiers: seq<char>)
    ensures modifiers == ModifiersFor(trace, declared, files)
  {
    var info := GetCallInfo(trace, declared, files);
    if info.None? {
      return [];
    }
    return info.value;
  }

  /** No frame matching a declared alias means no operators. */
  lemma NoListedFrameNoModifiers(trace: seq<Frame>, declared: Option<seq<Value>>,
                                 files: map<string, seq<Token>>)
    requires forall k :: 0 <= k < |trace|
               ==> !TraceFrameIsListed(trace[k], Normalized(GetModifierAliases(declared)))
    ensures ModifiersFor(trace, declared, files) == []
  {
    NoListedFrameNoneSelected(trace, Normalized(GetModifierAliases(declared)));
  }

  /** A class that declares no aliases never sees any operator. */
  lemma NoAliasesNoModifiers(trace: seq<Frame>, files: map<string, seq<Token>>)
    ensures ModifiersFor(trace, None, files) == []
  {
    NoListedFrameNoModifiers(trace, None, files);
  }

  /** A frame without a readable file, a line or a function yields no operators. */
  lemma IncompleteFrameNoModifiers(trace: seq<Frame>, declared: Option<seq<Value>>,
                                   files: map<string, seq<Token>>)
    requires var f := CalleeOrNoFrame(trace, declared);
             f.file.None? || f.line.None? || f.func.None? || f.file.value !in files
    ensures ModifiersFor(trace, declared, files) == []
  {
  }

  // ---------------------------------------------------------------------
  // hasModifier and hasModifiers (src/HasModifiers.php:24-40); `used` is
  // the list `getModifiers` returns, that is `ModifiersFor(...)`.

  /** `hasModifier`: `in_array($modifier, $used)`, the string is one of the
      one-character strings of the list. */
  function HasModifier(m: string, used: seq<char>): (r: bool)
    ensures r <==> |m| == 1 && m[0] in used
  {
    exists k :: 0 <= k < |used| && [used[k]] == m
  }

  /** `hasModifiers`: the loop over `ms` that answers false at the first
      operator that was not used. */
  method HasModifiers(ms: seq<string>, used: seq<char>) returns (r: bool)
    ensures r <==> forall k :: 0 <= k < |ms| ==> HasModifier(ms[k], used)
  {
    for k := 0 to |ms|
      invariant forall i :: 0 <= i < k ==> HasModifier(ms[i], used)
    {
      if !HasModifier(ms[k], used) {
        return false;
      }
    }
    return true;
  }

  /** Only a single-character string naming one of the five operators can
      be reported as used. */
  lemma ReportedModifier(m: string, trace: seq<Frame>, declared: Option<seq<Value>>,
                         files: map<string, seq<Token>>)
    requires HasModifier(m, ModifiersFor(trace, declared, files))
    ensures |m| == 1 && IsModifierSymbol(m[0])
  {
    var used := ModifiersFor(trace, declared, files);
    var k :| 0 <= k < |used| && used[k] == m[0];
  }

  /** A class that declares no aliases has no operator, so `hasModifiers`
      holds only for the empty question. */
  lemma NoAliasesOnlyEmptyQuestion(ms: seq<string>, trace: seq<Frame>, files: map<string, seq<Token>>)
    ensures (forall k :: 0 <= k < |ms| ==> HasModifier(ms[k], ModifiersFor(trace, None, files))) <==> ms == []
  {
    NoAliasesNoModifiers(trace, files);
    if ms != [] {
      assert !HasModifier(ms[0], []);
    }
  }
}
