/** A worked example of the call finder: one static call carrying four
    stacked operators (the call of tests/Unit/ModifierTest.php:67). */
module CallFinderExample {
  import opened Php
  import opened Tokens
  import opened CallFinder

  /** The tokens of `<?php` followed, on the next line, by
      `! @+-Example::setValue('test');`. */
  function StackedOperatorsSource(): seq<Token> {
    [Tok(OpenTag, "<?php\n"), Ch('!'), Tok(Whitespace, " "), Ch('@'), Ch('+'), Ch('-'),
     Tok(String, "Example"), Tok(DoubleColon, "::"), Tok(String, "setValue"), Ch('('),
     Tok(Other, "'test'"), Ch(')'), Ch(';')]
  }

  lemma StackedOperatorsTarget()
    ensures TargetOf(StaticMethod("Tests\\Example", "setValue")) == Target(Some("example"), "setvalue")
  {
    StackedOperatorsClass();
    StackedOperatorsNames();
  }

  /** The namespace is dropped from the class name. */
  lemma StackedOperatorsClass()
    ensures LastSegment("Tests\\Example") == "Example"
  {
    assert "Tests\\Example" == "Tests" + ['\\'] + "Example";
    LastSegmentAfter("Tests", "Example");
  }

  /** The segment after a backslash that is followed by no other. */
  lemma LastSegmentAfter(p: string, q: string)
    requires '\\' !in q
    ensures LastSegment(p + ['\\'] + q) == q
  {
    var s := p + ['\\'] + q;
    var r := LastSegment(s);
    assert s[|p|] == '\\';
    assert |r| == |q|;
    assert r == s[|s| - |q|..] == q;
  }

  lemma StackedOperatorsNames()
    ensures Lower("Example") == "example" && Lower("setValue") == "setvalue"
  {
  }

  lemma StackedOperatorsCollected()
    ensures CallOperators(StackedOperatorsSource(), 8) == ['-', '+', '@', '!']
  {
    var ts := StackedOperatorsSource();
    assert QualifierStart(ts, 6) == 5;
    assert OperatorsFrom(ts, 1) == ['!'];
    assert OperatorsFrom(ts, 3) == ['@', '!'];
  }

  lemma OpenTagLine()
    ensures CountNewlines("<?php\n") == 1
  {
    assert "<?php\n"[1..] == "?php\n";
    assert "?php\n"[1..] == "php\n";
    assert "php\n"[1..] == "hp\n";
    assert "hp\n"[1..] == "p\n";
    assert "p\n"[1..] == "\n";
  }

  /** The open tag ends the first line. */
  lemma TagBreaks(ts: seq<Token>)
    requires ts == StackedOperatorsSource()
    ensures LineBreaks(ts[0]) == 1
  {
    assert ts[0] == Tok(OpenTag, "<?php\n");
    OpenTagLine();
  }

  /** `! @+-` spans no line feed. */
  lemma OperatorBreaks(ts: seq<Token>)
    requires ts == StackedOperatorsSource()
    ensures LineBreaks(ts[1]) == 0 && LineBreaks(ts[2]) == 0 && LineBreaks(ts[3]) == 0
    ensures LineBreaks(ts[4]) == 0 && LineBreaks(ts[5]) == 0
  {
    assert ts[1] == Ch('!') && ts[3] == Ch('@') && ts[4] == Ch('+') && ts[5] == Ch('-');
    assert ts[2] == Tok(Whitespace, " ");
    assert '\n' !in " ";
  }

  /** `Example::` spans no line feed. */
  lemma ClassBreaks(ts: seq<Token>)
    requires ts == StackedOperatorsSource()
    ensures LineBreaks(ts[6]) == 0 && LineBreaks(ts[7]) == 0
  {
    assert ts[6] == Tok(String, "Example");
    assert '\n' !in "Example";
    assert ts[7] == Tok(DoubleColon, "::");
    assert '\n' !in "::";
  }

  /** `setValue` spans no line feed. */
  lemma NameBreaks(ts: seq<Token>)
    requires ts == StackedOperatorsSource()
    ensures LineBreaks(ts[8]) == 0
  {
    assert ts[8] == Tok(String, "setValue");
    assert '\n' !in "setValue";
  }

  /** The line feeds up to and including the call's name: the open tag's,
      and none after it. */
  lemma LinesBeforeName(ts: seq<Token>)
    requires ts == StackedOperatorsSource()
    ensures Newlines(ts[..9]) == 1
  {
    LinesBeforeClass(ts);
    ClassBreaks(ts);
    NameBreaks(ts);
    SpanStep(ts, 6);
    SpanStep(ts, 7);
    SpanStep(ts, 8);
  }

  /** The line feeds in front of `Example`: only the open tag's. */
  lemma LinesBeforeClass(ts: seq<Token>)
    requires ts == StackedOperatorsSource()
    ensures Newlines(ts[..6]) == 1
  {
    TagBreaks(ts);
    OperatorBreaks(ts);
    assert ts[..0] == [];
    SpanStep(ts, 0);
    SpanStep(ts, 1);
    SpanStep(ts, 2);
    SpanStep(ts, 3);
    SpanStep(ts, 4);
    SpanStep(ts, 5);
  }

  /** The call's name stands on line 2. */
  lemma StackedOperatorsLine()
    ensures Newlines(StackedOperatorsSource()[..9]) == 1
  {
    LinesBeforeName(StackedOperatorsSource());
  }

  /** The call closes on the same line, at the `)` two tokens after `(`. */
  lemma StackedOperatorsSpan()
    ensures CallSpan(StackedOperatorsSource(), 10) == [Tok(Other, "'test'"), Ch(')')]
    ensures Newlines(CallSpan(StackedOperatorsSource(), 10)) == 0
  {
    var rest := StackedOperatorsSource()[10..];
    assert rest == [Tok(Other, "'test'"), Ch(')'), Ch(';')];
    ClosingSpan(rest);
  }

  /** The scan of `'test'`, `)`, `;` stops at `)`, and spans no line feed. */
  lemma ClosingSpan(rest: seq<Token>)
    requires rest == [Tok(Other, "'test'"), Ch(')'), Ch(';')]
    ensures rest[..CallLength(rest)] == [Tok(Other, "'test'"), Ch(')')]
    ensures Newlines(rest[..CallLength(rest)]) == 0
  {
    SpanStep(rest, 0);
    SpanStep(rest, 1);
    assert rest[..0] == [];
    CallLengthUnique(rest, 2);
    forall k | 0 <= k < 2 ensures LineBreaks(rest[..2][k]) == 0 {
    }
    NewlinesNone(rest[..2]);
  }

  lemma StackedOperatorsNext()
    ensures NextReal(StackedOperatorsSource(), 8) == Some(9)
  {
  }

  lemma StackedOperatorsShape()
    ensures ShapeMatches(Some("example"), Significants(StackedOperatorsSource()[..8]))
  {
    var ts := StackedOperatorsSource();
    SignificantsEndWith(ts[..8], 7);
    assert ts[..8][..7] == ts[..7];
    SignificantsEndWith(ts[..7], 6);
    StackedOperatorsNames();
  }

  lemma StackedOperatorsAccepted()
    ensures Accepted(StackedOperatorsSource(), 2, Target(Some("example"), "setvalue"), 8)
  {
    StackedOperatorsLine();
    StackedOperatorsNext();
    StackedOperatorsSpan();
    StackedOperatorsShape();
    StackedOperatorsNames();
  }

  /** The only other name token, `Example`, is not `setValue`. */
  lemma StackedOperatorsOnlyCall()
    ensures forall j :: 0 <= j < 13 && j != 8
              ==> !Accepted(StackedOperatorsSource(), 2, Target(Some("example"), "setvalue"), j)
  {
    var ts := StackedOperatorsSource();
    forall j | 0 <= j < |ts| && j != 8 && j != 6 ensures !ts[j].Tok? || ts[j].kind != String {
    }
    assert |Lower(ts[6].text)| != 8;
  }

  /** The one accepted call is the `setValue` call, with its four operators. */
  lemma StackedOperatorsCalls()
    ensures AcceptedCalls(StackedOperatorsSource(), 2, Target(Some("example"), "setvalue"), 13)
         == [['-', '+', '@', '!']]
  {
    StackedOperatorsAccepted();
    StackedOperatorsCollected();
    StackedOperatorsOnlyCall();
    SingleAcceptedCall(StackedOperatorsSource(), 2, Target(Some("example"), "setvalue"), 8, 13);
  }

  lemma StackedOperatorsDistinct()
    ensures NoDuplicates(['-', '+', '@', '!'])
  {
  }

  /** Several operators in front of one call are all reported, nearest first
      (the call of tests/Unit/ModifierTest.php:67). */
  lemma StackedOperatorsExample()
    ensures ModifiersUsed(StackedOperatorsSource(), 2, StaticMethod("Tests\\Example", "setValue"))
         == ['-', '+', '@', '!']
  {
    StackedOperatorsTarget();
    StackedOperatorsCalls();
    StackedOperatorsDistinct();
    SingleCallReported(StackedOperatorsSource(), 2, StaticMethod("Tests\\Example", "setValue"),
                       ['-', '+', '@', '!']);
  }
}
