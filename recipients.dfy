/**
 * The console's recipient parser: the raw text is split on runs of newlines
 * and commas, every piece is trimmed, and empty pieces are dropped.
 */
module Recipients {
  import opened JsString

  predicate IsSeparator(c: char)
  {
    c == '\n' || c == ','
  }

  predicate NoSeparator(s: string)
  {
    forall k :: 0 <= k < |s| ==> !IsSeparator(s[k])
  }

  /** Only separators and white space. */
  predicate Blank(s: string)
  {
    forall k :: 0 <= k < |s| ==> IsSeparator(s[k]) || IsWhitespace(s[k])
  }

  /** Index of the first separator of `s`, or `|s|` when there is none. */
  function FirstSeparator(s: string): (i: nat)
    ensures i <= |s|
    ensures NoSeparator(s[..i])
    ensures i < |s| ==> IsSeparator(s[i])
  {
    if s == [] || IsSeparator(s[0]) then 0 else 1 + FirstSeparator(s[1..])
  }

  /** End of the run of separators that starts at `i`. */
  function EndOfRun(s: string, i: nat): (j: nat)
    requires i <= |s|
    ensures i <= j <= |s|
    ensures forall k :: i <= k < j ==> IsSeparator(s[k])
    ensures j < |s| ==> !IsSeparator(s[j])
    decreases |s| - i
  {
    if i < |s| && IsSeparator(s[i]) then EndOfRun(s, i + 1) else i
  }

  /** `s.split(/[\n,]+/)`: the pieces between maximal runs of separators,
      with an empty first (last) piece when `s` starts (ends) with a run. */
  function Split(s: string): (pieces: seq<string>)
    ensures |pieces| >= 1
    ensures forall k :: 0 <= k < |pieces| ==> NoSeparator(pieces[k])
    decreases |s|
  {
    var i := FirstSeparator(s);
    if i == |s| then [s] else [s[..i]] + Split(s[EndOfRun(s, i + 1)..])
  }

  /** Reference split on every single separator, so that consecutive
      separators delimit empty pieces. */
  function SplitEach(s: string): (pieces: seq<string>)
    ensures |pieces| >= 1
    decreases |s|
  {
    var i := FirstSeparator(s);
    if i == |s| then [s] else [s[..i]] + SplitEach(s[i + 1..])
  }

  /** `.map((entry) => entry.trim())` */
  function TrimAll(pieces: seq<string>): (r: seq<string>)
    ensures |r| == |pieces|
    ensures forall k :: 0 <= k < |r| ==> r[k] == Trim(pieces[k])
  {
    seq(|pieces|, k requires 0 <= k < |pieces| => Trim(pieces[k]))
  }

  /** `.filter(Boolean)` on strings: keeps the non-empty ones, in order. */
  function KeepNonEmpty(xs: seq<string>): (r: seq<string>)
    ensures |r| <= |xs|
    ensures forall k :: 0 <= k < |r| ==> r[k] != [] && r[k] in xs
  {
    if xs == [] then []
    else if xs[0] == [] then KeepNonEmpty(xs[1..])
    else [xs[0]] + KeepNonEmpty(xs[1..])
  }

  /** Trims every piece and drops the empty ones: what is left are non-empty
      trimmed pieces. */
  function Clean(pieces: seq<string>): (r: seq<string>)
    ensures |r| <= |pieces|
    ensures forall k :: 0 <= k < |r| ==> r[k] != [] && exists j :: 0 <= j < |pieces| && r[k] == Trim(pieces[j])
  {
    KeepNonEmpty(TrimAll(pieces))
  }

  /** An entry the parser can produce: non-empty, trimmed at both ends, and
      free of separators. */
  predicate IsRecipient(e: string)
  {
    e != [] && !IsWhitespace(e[0]) && !IsWhitespace(e[|e| - 1]) && NoSeparator(e)
  }

  /** `parseRecipients(value)` */
  function ParseRecipients(value: string): (r: seq<string>)
    ensures forall k :: 0 <= k < |r| ==> IsRecipient(r[k])
  {
    var pieces := Split(value);
    var r := Clean(pieces);
    assert forall k :: 0 <= k < |r| ==> IsRecipient(r[k]) by {
      forall k | 0 <= k < |r| ensures IsRecipient(r[k]) {
        var j :| 0 <= j < |pieces| && r[k] == Trim(pieces[j]);
        TrimKeepsNoSeparator(pieces[j]);
        TrimEnds(pieces[j]);
      }
    }
    r
  }

  lemma TrimKeepsNoSeparator(s: string)
    requires NoSeparator(s)
    ensures NoSeparator(Trim(s))
  {
    var r := Trim(s);
    var lo := LeadingWhitespace(s);
    forall k | 0 <= k < |r| ensures !IsSeparator(r[k]) {
      assert r[k] == s[lo + k];
    }
  }

  /** The first separator is determined by the two facts FirstSeparator states. */
  lemma FirstSeparatorAt(s: string, i: nat)
    requires i <= |s| && NoSeparator(s[..i])
    requires i < |s| ==> IsSeparator(s[i])
    ensures FirstSeparator(s) == i
    decreases i
  {
    if i > 0 {
      assert s[..i][0] == s[0];
      assert s[1..][..i - 1] == s[..i][1..];
      FirstSeparatorAt(s[1..], i - 1);
    }
  }

  lemma {:induction false} KeepNonEmptyAppend(xs: seq<string>, ys: seq<string>)
    ensures KeepNonEmpty(xs + ys) == KeepNonEmpty(xs) + KeepNonEmpty(ys)
  {
    if xs == [] {
      assert xs + ys == ys;
    } else {
      assert (xs + ys)[1..] == xs[1..] + ys;
      KeepNonEmptyAppend(xs[1..], ys);
    }
  }

  lemma TrimAllAppend(xs: seq<string>, ys: seq<string>)
    ensures TrimAll(xs + ys) == TrimAll(xs) + TrimAll(ys)
  {
  }

  lemma CleanAppend(xs: seq<string>, ys: seq<string>)
    ensures Clean(xs + ys) == Clean(xs) + Clean(ys)
  {
    TrimAllAppend(xs, ys);
    KeepNonEmptyAppend(TrimAll(xs), TrimAll(ys));
  }

  /** Splitting on every separator is a homomorphism: a separator between
      two texts ends the last piece of the first. */
  lemma {:induction false} SplitEachAppend(a: string, c: char, b: string)
    requires IsSeparator(c)
    ensures SplitEach(a + [c] + b) == SplitEach(a) + SplitEach(b)
    decreases |a|
  {
    var i := FirstSeparator(a);
    if i == |a| {
      SplitEachAppendSegment(a, c, b);
    } else {
      var s, rest := a + [c] + b, a[i + 1..];
      assert s[..i] == a[..i] && s[i] == a[i];
      assert s[i + 1..] == rest + [c] + b;
      calc {
        SplitEach(s);
        { SplitEachAt(s, i); }
        [a[..i]] + SplitEach(rest + [c] + b);
        { SplitEachAppend(rest, c, b); }
        [a[..i]] + (SplitEach(rest) + SplitEach(b));
        { SplitEachAt(a, i); }
        SplitEach(a) + SplitEach(b);
      }
    }
  }

  lemma SplitEachAppendSegment(a: string, c: char, b: string)
    requires IsSeparator(c) && NoSeparator(a)
    ensures SplitEach(a + [c] + b) == SplitEach(a) + SplitEach(b)
  {
    var s := a + [c] + b;
    assert s[..|a|] == a;
    SplitEachAt(s, |a|);
    assert s[|a| + 1..] == b;
    assert a[..|a|] == a;
    FirstSeparatorAt(a, |a|);
  }

  /** One step of SplitEach, at a separator preceded by none. */
  lemma SplitEachAt(s: string, i: nat)
    requires i < |s| && NoSeparator(s[..i]) && IsSeparator(s[i])
    ensures SplitEach(s) == [s[..i]] + SplitEach(s[i + 1..])
  {
    FirstSeparatorAt(s, i);
  }

  /** A run of separators only contributes empty pieces, which are dropped. */
  lemma {:induction false} DropRun(s: string, i: nat)
    requires i <= |s|
    ensures Clean(SplitEach(s[i..])) == Clean(SplitEach(s[EndOfRun(s, i)..]))
    decreases |s| - i
  {
    if i < |s| && IsSeparator(s[i]) {
      assert s[i..][..0] == [];
      assert s[i..][1..] == s[i + 1..];
      SplitEachAt(s[i..], 0);
      CleanAppend([[]], SplitEach(s[i + 1..]));
      DropRun(s, i + 1);
    }
  }

  /** Proof step: Split unfolded once at the first separator. */
  lemma SplitUnfold(s: string)
    requires FirstSeparator(s) < |s|
    ensures var i := FirstSeparator(s);
      Split(s) == [s[..i]] + Split(s[EndOfRun(s, i + 1)..])
  {
  }

  /** Cleaning what Split yields: the first piece, then the rest after the
      run of separators that ends it. */
  lemma CleanSplitStep(s: string, i: nat)
    requires i == FirstSeparator(s) && i < |s|
    ensures Clean(Split(s)) == Clean([s[..i]]) + Clean(Split(s[EndOfRun(s, i + 1)..]))
  {
    var rest := s[EndOfRun(s, i + 1)..];
    calc {
      Clean(Split(s));
      { SplitUnfold(s); }
      Clean([s[..i]] + Split(rest));
      { CleanAppend([s[..i]], Split(rest)); }
      Clean([s[..i]]) + Clean(Split(rest));
    }
  }

  /** Cleaning what SplitEach yields: the first piece, then the rest after the
      run of separators that ends it, whose empty pieces are dropped. */
  lemma CleanSplitEachStep(s: string, i: nat)
    requires i == FirstSeparator(s) && i < |s|
    ensures Clean(SplitEach(s)) == Clean([s[..i]]) + Clean(SplitEach(s[EndOfRun(s, i + 1)..]))
  {
    calc {
      Clean(SplitEach(s));
      { SplitEachAt(s, i); }
      Clean([s[..i]] + SplitEach(s[i + 1..]));
      { CleanAppend([s[..i]], SplitEach(s[i + 1..])); }
      Clean([s[..i]]) + Clean(SplitEach(s[i + 1..]));
      { DropRun(s, i + 1); }
      Clean([s[..i]]) + Clean(SplitEach(s[EndOfRun(s, i + 1)..]));
    }
  }

  /** Splitting on runs and splitting on single separators agree once pieces
      are trimmed and empty ones are dropped. */
  lemma {:induction false} SplitAgreesWithSplitEach(s: string)
    ensures Clean(Split(s)) == Clean(SplitEach(s))
    decreases |s|
  {
    var i := FirstSeparator(s);
    if i < |s| {
      CleanSplitStep(s, i);
      CleanSplitEachStep(s, i);
      SplitAgreesWithSplitEach(s[EndOfRun(s, i + 1)..]);
    }
  }

  /** A separator between two texts splits their recipients exactly: nothing
      is lost, merged or reordered, and however many separators stand in a
      row, no entry comes from between them. */
  lemma ParseRecipientsAppend(a: string, c: char, b: string)
    requires IsSeparator(c)
    ensures ParseRecipients(a + [c] + b) == ParseRecipients(a) + ParseRecipients(b)
  {
    SplitAgreesWithSplitEach(a + [c] + b);
    SplitAgreesWithSplitEach(a);
    SplitAgreesWithSplitEach(b);
    SplitEachAppend(a, c, b);
    CleanAppend(SplitEach(a), SplitEach(b));
  }

  /** A text without separators yields its trimmed self, or nothing when it
      is blank. */
  lemma ParseRecipientsOfSegment(s: string)
    requires NoSeparator(s)
    ensures ParseRecipients(s) == if Trim(s) == [] then [] else [Trim(s)]
  {
    FirstSeparatorAt(s, |s|);
    assert Split(s) == [s];
  }

  /** The parser yields nothing exactly when the text holds only separators
      and white space. */
  lemma {:induction false} ParseRecipientsEmpty(s: string)
    ensures ParseRecipients(s) == [] <==> Blank(s)
    decreases |s|
  {
    var i := FirstSeparator(s);
    if i == |s| {
      ParseRecipientsOfSegment(s);
    } else {
      var a, b := s[..i], s[i + 1..];
      assert s == a + [s[i]] + b;
      ParseRecipientsAppend(a, s[i], b);
      ParseRecipientsOfSegment(a);
      ParseRecipientsEmpty(b);
      BlankAroundSeparator(a, s[i], b);
    }
  }

  /** A text around a separator is blank exactly when both sides are. */
  lemma BlankAroundSeparator(a: string, c: char, b: string)
    requires IsSeparator(c)
    ensures Blank(a + [c] + b) <==> Blank(a) && Blank(b)
  {
    var s := a + [c] + b;
    assert forall k :: 0 <= k < |a| ==> a[k] == s[k];
    assert forall k :: 0 <= k < |b| ==> b[k] == s[|a| + 1 + k];
  }

  /** A one-character name on its own is one recipient. */
  lemma ParseShortName(c: char)
    requires !IsWhitespace(c) && !IsSeparator(c)
    ensures ParseRecipients([c]) == [[c]]
  {
    assert LeadingWhitespace([c]) == 0;
    assert TrailingWhitespace([c]) == 0;
    assert [c][0..] == [c] && [c][..1] == [c];
    assert Trim([c]) == [c];
    ParseRecipientsOfSegment([c]);
  }

  /** A one-character name after one space is that name, trimmed. */
  lemma ParseSpacedName(c: char)
    requires !IsWhitespace(c) && !IsSeparator(c)
    ensures ParseRecipients([' ', c]) == [[c]]
  {
    assert [' ', c][1..] == [c];
    assert LeadingWhitespace([' ', c]) == 1;
    assert TrailingWhitespace([c]) == 0;
    assert [c][..1] == [c];
    assert Trim([' ', c]) == [c];
    ParseRecipientsOfSegment([' ', c]);
  }

  lemma NewlineSeparatedNames(b: char, c: char)
    requires !IsWhitespace(b) && !IsSeparator(b)
    requires !IsWhitespace(c) && !IsSeparator(c)
    ensures ParseRecipients([' ', b, '\n', c]) == [[b], [c]]
  {
    var head, tail := [' ', b], [c];
    assert [' ', b, '\n', c] == head + ['\n'] + tail;
    calc {
      ParseRecipients(head + ['\n'] + tail);
      { ParseRecipientsAppend(head, '\n', tail); }
      ParseRecipients(head) + ParseRecipients(tail);
      { ParseSpacedName(b); ParseShortName(c); }
      [[b]] + [[c]];
    }
  }

  /** `"a, b\nc"` gives `a`, `b`, `c`: commas and newlines both separate, and
      the space after a comma is trimmed. */
  lemma ExampleMixedSeparators(a: char, b: char, c: char)
    requires !IsWhitespace(a) && !IsSeparator(a)
    requires !IsWhitespace(b) && !IsSeparator(b)
    requires !IsWhitespace(c) && !IsSeparator(c)
    ensures ParseRecipients([a, ',', ' ', b, '\n', c]) == [[a], [b], [c]]
  {
    var head, tail := [a], [' ', b, '\n', c];
    assert [a, ',', ' ', b, '\n', c] == head + [','] + tail;
    calc {
      ParseRecipients(head + [','] + tail);
      { ParseRecipientsAppend(head, ',', tail); }
      ParseRecipients(head) + ParseRecipients(tail);
      { ParseShortName(a); NewlineSeparatedNames(b, c); }
      [[a]] + [[b], [c]];
    }
  }

  /** `" , ,\n"` gives no recipient. */
  lemma ExampleOnlySeparators()
    ensures ParseRecipients(" , ,\n") == []
  {
    var s := " , ,\n";
    assert |s| == 5 && s[0] == ' ' && s[1] == ',' && s[2] == ' ' && s[3] == ',' && s[4] == '\n';
    assert Blank(s);
    ParseRecipientsEmpty(s);
  }

  /** `"x, x"` gives `x` twice: duplicates are kept, in order. */
  lemma ExampleDuplicates(x: char)
    requires !IsWhitespace(x) && !IsSeparator(x)
    ensures ParseRecipients([x, ',', ' ', x]) == [[x], [x]]
  {
    var head, tail := [x], [' ', x];
    assert [x, ',', ' ', x] == head + [','] + tail;
    calc {
      ParseRecipients(head + [','] + tail);
      { ParseRecipientsAppend(head, ',', tail); }
      ParseRecipients(head) + ParseRecipients(tail);
      { ParseShortName(x); ParseSpacedName(x); }
      [[x]] + [[x]];
    }
  }
}
