/** The bracket-aware split of the formula line: every bracket becomes a
    segment of its own, the text between brackets is kept in one piece, and
    each segment carries the bracket depth it is drawn at. */
module Formula {

  /** One piece of the formula line.  Highlighting is never switched on. */
  datatype FormulaSegment = FormulaSegment(text: string, isHighlighted: bool, bracketLevel: int)

  predicate IsBracket(c: char) {
    c == '(' || c == ')'
  }

  /** Text without brackets. */
  predicate Plain(t: string) {
    forall k :: 0 <= k < |t| ==> !IsBracket(t[k])
  }

  /** The depth after one more character: "(" opens a level, ")" closes one
      but never goes below zero, anything else leaves the depth alone. */
  function Step(depth: nat, c: char): nat {
    if c == '(' then depth + 1
    else if c == ')' then (if depth == 0 then 0 else depth - 1)
    else depth
  }

  /** The bracket depth after reading `s` from the start. */
  function Depth(s: string): nat
    decreases |s|
  {
    if s == [] then 0 else Step(Depth(s[..|s| - 1]), s[|s| - 1])
  }

  /** The text the segments spell when drawn one after the other. */
  function Texts(segments: seq<FormulaSegment>): string
    decreases |segments|
  {
    if segments == [] then []
    else Texts(segments[..|segments| - 1]) + segments[|segments| - 1].text
  }

  predicate IsBracketSegment(seg: FormulaSegment) {
    seg.text == "(" || seg.text == ")"
  }

  /** A segment drawn after the text `before`: an opening bracket sits at the
      depth outside it, a closing bracket at the depth it returns to, and a
      run of other characters at the depth it is read at. */
  predicate SegmentOk(seg: FormulaSegment, before: string) {
    && !seg.isHighlighted
    && (if seg.text == "(" then seg.bracketLevel == Depth(before)
        else if seg.text == ")" then seg.bracketLevel == Depth(before + ")")
        else seg.text != [] && Plain(seg.text) && seg.bracketLevel == Depth(before))
  }

  /** Every segment is well placed, and a run of text always follows a
      bracket (or starts the line), so no two runs of text touch. */
  predicate Leveled(segments: seq<FormulaSegment>)
    decreases |segments|
  {
    segments == [] ||
      var init := segments[..|segments| - 1];
      var last := segments[|segments| - 1];
      && Leveled(init)
      && SegmentOk(last, Texts(init))
      && (!IsBracketSegment(last) && init != [] ==> IsBracketSegment(init[|init| - 1]))
  }

  lemma DepthPlain(before: string, t: string)
    requires Plain(t)
    ensures Depth(before + t) == Depth(before)
    decreases |t|
  {
    if t == [] {
      assert before + t == before;
    } else {
      var bt := before + t;
      assert bt[..|bt| - 1] == before + t[..|t| - 1];
      assert bt[|bt| - 1] == t[|t| - 1];
      DepthPlain(before, t[..|t| - 1]);
    }
  }

  lemma DepthSnoc(s: string, c: char)
    ensures Depth(s + [c]) == Step(Depth(s), c)
  {
    assert (s + [c])[..|s + [c]| - 1] == s;
  }

  lemma TextsSnoc(segments: seq<FormulaSegment>, seg: FormulaSegment)
    ensures Texts(segments + [seg]) == Texts(segments) + seg.text
  {
    assert (segments + [seg])[..|segments + [seg]| - 1] == segments;
  }

  lemma LeveledSnoc(segments: seq<FormulaSegment>, seg: FormulaSegment)
    requires Leveled(segments)
    requires SegmentOk(seg, Texts(segments))
    requires !IsBracketSegment(seg) && segments != [] ==> IsBracketSegment(segments[|segments| - 1])
    ensures Leveled(segments + [seg])
  {
    var s := segments + [seg];
    assert s[..|s| - 1] == segments;
  }

  /** What holds after reading `read` characters: the finished segments and
      the pending run of text spell what was read, the depth is the depth of
      what was read, and the finished segments end in a bracket. */
  predicate Scanned(read: string, segments: seq<FormulaSegment>, currentText: string, bracketDepth: nat) {
    && Texts(segments) + currentText == read
    && bracketDepth == Depth(read)
    && Plain(currentText)
    && Leveled(segments)
    && (segments != [] ==> IsBracketSegment(segments[|segments| - 1]))
  }

  /** The finished segments with the pending run of text, if any, closed as
      a segment of its own. */
  function Flushed(segments: seq<FormulaSegment>, currentText: string, bracketDepth: nat): seq<FormulaSegment> {
    if currentText == [] then segments else segments + [FormulaSegment(currentText, false, bracketDepth)]
  }

  lemma FlushedSpells(read: string, segments: seq<FormulaSegment>, currentText: string, bracketDepth: nat)
    requires Scanned(read, segments, currentText, bracketDepth)
    ensures Texts(Flushed(segments, currentText, bracketDepth)) == read
    ensures Leveled(Flushed(segments, currentText, bracketDepth))
  {
    if currentText == [] {
      assert Texts(segments) + currentText == Texts(segments);
    } else {
      var seg := FormulaSegment(currentText, false, bracketDepth);
      DepthPlain(Texts(segments), currentText);
      LeveledSnoc(segments, seg);
      TextsSnoc(segments, seg);
    }
  }

  /** Reading a bracket: close the pending run, then add the bracket, which
      leaves `segments'` and `depth'`. */
  lemma ReadBracket(read: string, segments: seq<FormulaSegment>, currentText: string, bracketDepth: nat, c: char,
                    segments': seq<FormulaSegment>, depth': nat)
    requires Scanned(read, segments, currentText, bracketDepth) && IsBracket(c)
    requires segments' == Flushed(segments, currentText, bracketDepth)
                          + [FormulaSegment([c], false, if c == '(' then bracketDepth else Step(bracketDepth, c))]
    requires depth' == Step(bracketDepth, c)
    ensures Scanned(read + [c], segments', "", depth')
  {
    var flushed := Flushed(segments, currentText, bracketDepth);
    var seg := FormulaSegment([c], false, if c == '(' then bracketDepth else Step(bracketDepth, c));
    FlushedSpells(read, segments, currentText, bracketDepth);
    DepthSnoc(read, c);
    assert IsBracketSegment(seg) && SegmentOk(seg, read) by {
      if c == '(' {
        assert [c] == "(";
      } else {
        assert [c] == ")";
      }
    }
    LeveledSnoc(flushed, seg);
    TextsSnoc(flushed, seg);
    assert (flushed + [seg])[|flushed + [seg]| - 1] == seg;
  }

  /** Reading any other character adds it to the pending run. */
  lemma ReadOther(read: string, segments: seq<FormulaSegment>, currentText: string, bracketDepth: nat, c: char)
    requires Scanned(read, segments, currentText, bracketDepth) && !IsBracket(c)
    ensures Scanned(read + [c], segments, currentText + [c], bracketDepth)
  {
    assert Texts(segments) + (currentText + [c]) == read + [c];
    DepthSnoc(read, c);
  }

  /** The loop's steps, stated on the prefix of the formula read so far. */
  lemma ScanBracket(formula: string, i: nat, segments: seq<FormulaSegment>, currentText: string, bracketDepth: nat,
                    segments': seq<FormulaSegment>, depth': nat)
    requires i < |formula| && Scanned(formula[..i], segments, currentText, bracketDepth) && IsBracket(formula[i])
    requires segments' == Flushed(segments, currentText, bracketDepth)
                          + [FormulaSegment([formula[i]], false,
                                            if formula[i] == '(' then bracketDepth else Step(bracketDepth, formula[i]))]
    requires depth' == Step(bracketDepth, formula[i])
    ensures Scanned(formula[..i + 1], segments', "", depth')
  {
    PrefixSnoc(formula, i);
    ReadBracket(formula[..i], segments, currentText, bracketDepth, formula[i], segments', depth');
  }

  lemma ScanOther(formula: string, i: nat, segments: seq<FormulaSegment>, currentText: string, bracketDepth: nat)
    requires i < |formula| && Scanned(formula[..i], segments, currentText, bracketDepth) && !IsBracket(formula[i])
    ensures Scanned(formula[..i + 1], segments, currentText + [formula[i]], bracketDepth)
  {
    PrefixSnoc(formula, i);
    ReadOther(formula[..i], segments, currentText, bracketDepth, formula[i]);
  }

  lemma ScanDone(formula: string, segments: seq<FormulaSegment>, currentText: string, bracketDepth: nat)
    requires Scanned(formula[..|formula|], segments, currentText, bracketDepth)
    ensures Texts(Flushed(segments, currentText, bracketDepth)) == formula
    ensures Leveled(Flushed(segments, currentText, bracketDepth))
  {
    assert formula[..|formula|] == formula;
    FlushedSpells(formula, segments, currentText, bracketDepth);
  }

  /** Splits `formula` into segments: brackets on their own, at the depth
      rules above, the text between them in one piece. */
  method GetFormattedSegments(formula: string) returns (segments: seq<FormulaSegment>)
    ensures Texts(segments) == formula
    ensures Leveled(segments)
  {
    segments := [];
    var currentText: string := "";
    var bracketDepth: nat := 0;
    for i := 0 to |formula|
      invariant Scanned(formula[..i], segments, currentText, bracketDepth)
    {
      var c := formula[i];
      if c == '(' || c == ')' {
        ghost var segments0, text0, depth0 := segments, currentText, bracketDepth;
        if currentText != [] {
          segments := segments + [FormulaSegment(currentText, false, bracketDepth)];
          currentText := "";
        }
        if c == '(' {
          bracketDepth := bracketDepth + 1;
          segments := segments + [FormulaSegment([c], false, bracketDepth - 1)];
        } else {
          bracketDepth := if bracketDepth == 0 then 0 else bracketDepth - 1;
          segments := segments + [FormulaSegment([c], false, bracketDepth)];
        }
        ScanBracket(formula, i, segments0, text0, depth0, segments, bracketDepth);
      } else {
        ScanOther(formula, i, segments, currentText, bracketDepth);
        currentText := currentText + [c];
      }
    }
    ScanDone(formula, segments, currentText, bracketDepth);
    if currentText != [] {
      segments := segments + [FormulaSegment(currentText, false, bracketDepth)];
    }
  }

  lemma PrefixSnoc(s: string, i: nat)
    requires i < |s|
    ensures s[..i + 1] == s[..i] + [s[i]]
  {
  }

  // ---------------------------------------------------------------------
  // The split is the only one with these properties

  lemma {:induction false} TextsLength(segments: seq<FormulaSegment>)
    requires Leveled(segments)
    ensures |Texts(segments)| >= |segments|
    decreases |segments|
  {
    if segments != [] {
      TextsLength(segments[..|segments| - 1]);
    }
  }

  /** The last character drawn is the last character of the last segment. */
  lemma LastCharacter(segments: seq<FormulaSegment>)
    requires Leveled(segments) && segments != []
    ensures var t := Texts(segments); var last := segments[|segments| - 1].text;
      && |t| >= |last| > 0
      && t[|t| - |last|..] == last
      && t[..|t| - |last|] == Texts(segments[..|segments| - 1])
  {
  }

  /** In a split that ends in a run of text, the character just before that
      run, if any, is a bracket. */
  lemma RunFollowsBracket(a: seq<FormulaSegment>)
    requires Leveled(a) && a != [] && !IsBracketSegment(a[|a| - 1])
    requires |Texts(a)| > |a[|a| - 1].text|
    ensures IsBracket(Texts(a)[|Texts(a)| - |a[|a| - 1].text| - 1])
  {
    var a' := a[..|a| - 1];
    LastCharacter(a);
    assert a' != [];
    LastCharacter(a');
    var t := Texts(a);
    assert Texts(a') == t[..|t| - |a[|a| - 1].text|];
  }

  /** Two leveled splits that spell the same text are the same split, so the
      contract of `GetFormattedSegments` fixes its result completely. */
  lemma {:induction false} LeveledUnique(a: seq<FormulaSegment>, b: seq<FormulaSegment>)
    requires Leveled(a) && Leveled(b) && Texts(a) == Texts(b)
    ensures a == b
    decreases |a|
  {
    if a == [] || b == [] {
      TextsLength(a);
      TextsLength(b);
      return;
    }
    var a', b' := a[..|a| - 1], b[..|b| - 1];
    assert a[|a| - 1] == b[|b| - 1] && Texts(a') == Texts(b') by {
      var t := Texts(a);
      LastCharacter(a);
      if IsBracket(t[|t| - 1]) {
        SameLastBracket(a, b);
      } else {
        SameLastRun(a, b);
      }
    }
    LeveledUnique(a', b');
    SameInitAndLast(a, b);
  }

  lemma SameInitAndLast(a: seq<FormulaSegment>, b: seq<FormulaSegment>)
    requires a != [] && b != []
    requires a[..|a| - 1] == b[..|b| - 1] && a[|a| - 1] == b[|b| - 1]
    ensures a == b
  {
    assert a == a[..|a| - 1] + [a[|a| - 1]];
    assert b == b[..|b| - 1] + [b[|b| - 1]];
  }

  /** Helper for the uniqueness proof: when the text ends in anything but a
      bracket, both splits end in the same run of text, the longest run
      without brackets at the end. */
  lemma SameLastRun(a: seq<FormulaSegment>, b: seq<FormulaSegment>)
    requires Leveled(a) && Leveled(b) && Texts(a) == Texts(b) && a != [] && b != []
    requires !IsBracket(Texts(a)[|Texts(a)| - 1])
    ensures a[|a| - 1] == b[|b| - 1]
    ensures Texts(a[..|a| - 1]) == Texts(b[..|b| - 1])
  {
    var t := Texts(a);
    var la, lb := a[|a| - 1], b[|b| - 1];
    LastCharacter(a);
    LastCharacter(b);
    assert !IsBracketSegment(la) && !IsBracketSegment(lb);
    if |la.text| < |lb.text| {
      RunFollowsBracket(a);
    } else if |lb.text| < |la.text| {
      RunFollowsBracket(b);
    }
  }

  /** Helper for the uniqueness proof: when the text ends in a bracket, both
      splits end in the same bracket segment. */
  lemma SameLastBracket(a: seq<FormulaSegment>, b: seq<FormulaSegment>)
    requires Leveled(a) && Leveled(b) && Texts(a) == Texts(b) && a != [] && b != []
    requires IsBracket(Texts(a)[|Texts(a)| - 1])
    ensures a[|a| - 1] == b[|b| - 1]
    ensures Texts(a[..|a| - 1]) == Texts(b[..|b| - 1])
  {
    LastCharacter(a);
    LastCharacter(b);
  }

  /** Levels are never negative, and an opening bracket and a closing bracket
      that follows it directly are drawn at the same level. */
  lemma BracketPairSameLevel(segments: seq<FormulaSegment>, i: nat)
    requires Leveled(segments) && i + 1 < |segments|
    requires segments[i].text == "(" && segments[i + 1].text == ")"
    ensures segments[i].bracketLevel == segments[i + 1].bracketLevel
  {
    var before := Texts(segments[..i]);
    SegmentAt(segments, i);
    SegmentAt(segments, i + 1);
    TextsPrefixStep(segments, i);
    DepthSnoc(before, '(');
    DepthSnoc(before + "(", ')');
    assert before + "(" + ")" == (before + "(") + [')'];
  }

  /** Every segment of a leveled split is well placed after the text before
      it. */
  lemma SegmentAt(segments: seq<FormulaSegment>, n: nat)
    requires Leveled(segments) && n < |segments|
    ensures SegmentOk(segments[n], Texts(segments[..n]))
  {
    LeveledPrefix(segments, n + 1);
  }

  lemma TextsPrefixStep(segments: seq<FormulaSegment>, n: nat)
    requires n < |segments|
    ensures Texts(segments[..n + 1]) == Texts(segments[..n]) + segments[n].text
  {
    assert segments[..n + 1][..n] == segments[..n];
  }

  lemma {:induction false} LeveledPrefix(segments: seq<FormulaSegment>, n: nat)
    requires Leveled(segments) && n <= |segments|
    ensures Leveled(segments[..n])
    ensures n > 0 ==> SegmentOk(segments[n - 1], Texts(segments[..n - 1]))
    decreases |segments|
  {
    if n < |segments| {
      var init := segments[..|segments| - 1];
      assert init[..n] == segments[..n];
      if n > 0 {
        assert init[..n - 1] == segments[..n - 1];
      }
      LeveledPrefix(init, n);
    } else {
      assert segments[..n] == segments;
      if n > 0 {
        assert segments[..n - 1] == segments[..|segments| - 1];
      }
    }
  }

  // ---------------------------------------------------------------------
  // Bracket counts

  /** The number of bracket characters in `s`. */
  function BracketCount(s: string): nat
    decreases |s|
  {
    if s == [] then 0 else BracketCount(s[..|s| - 1]) + (if IsBracket(s[|s| - 1]) then 1 else 0)
  }

  /** The number of segments that are a bracket on their own. */
  function BracketSegmentCount(segments: seq<FormulaSegment>): nat
    decreases |segments|
  {
    if segments == [] then 0
    else
      var init := segments[..|segments| - 1];
      BracketSegmentCount(init) + (if IsBracketSegment(segments[|segments| - 1]) then 1 else 0)
  }

  lemma {:induction false} BracketCountAppend(a: string, b: string)
    ensures BracketCount(a + b) == BracketCount(a) + BracketCount(b)
    decreases |b|
  {
    if b == [] {
      assert a + b == a;
    } else {
      assert (a + b)[..|a + b| - 1] == a + b[..|b| - 1];
      assert (a + b)[|a + b| - 1] == b[|b| - 1];
      BracketCountAppend(a, b[..|b| - 1]);
    }
  }

  lemma {:induction false} PlainHasNoBrackets(t: string)
    requires Plain(t)
    ensures BracketCount(t) == 0
    decreases |t|
  {
    if t != [] {
      PlainHasNoBrackets(t[..|t| - 1]);
    }
  }

  /** In a leveled split, the bracket segments are exactly the bracket
      characters: there are as many of the one as of the other. */
  lemma {:induction false} BracketSegmentsCountBrackets(segments: seq<FormulaSegment>)
    requires Leveled(segments)
    ensures BracketSegmentCount(segments) == BracketCount(Texts(segments))
    decreases |segments|
  {
    if segments != [] {
      var init := segments[..|segments| - 1];
      var last := segments[|segments| - 1];
      BracketSegmentsCountBrackets(init);
      BracketCountAppend(Texts(init), last.text);
      if IsBracketSegment(last) {
        assert BracketCount(last.text) == BracketCount([]) + 1 by {
          assert last.text[..0] == [];
        }
      } else {
        PlainHasNoBrackets(last.text);
      }
    }
  }
}
