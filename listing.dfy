/** The numbered list the generator is asked for ("Return as a numbered list"), and the
    round trip through the parser: such a list parses back to its own items, renumbered. */
module Listing {
  import opened Text
  import opened Parser

  /** An ordinal tag such as "1" or "12". */
  predicate IsOrdinal(tag: string) {
    tag != [] && AllDigits(tag)
  }

  /** No digit-period pair inside `x` is followed by whitespace or ends `x`: nowhere in `x`
      can the ordinal pattern start, whatever line follows it. */
  predicate NoInnerMarker(x: string) {
    forall j :: 0 <= j < |x| && DigitDot(x, j) ==> j + 2 < |x| && !IsSpace(x[j + 2])
  }

  /** A digit at `j` followed by a period. */
  predicate DigitDot(x: string, j: int) {
    0 <= j < |x| - 1 && IsDigit(x[j]) && x[j + 1] == '.'
  }

  /** A question text the list format carries unchanged. */
  predicate Plain(x: string) {
    x != [] && Trimmed(x) && NoInnerMarker(x)
  }

  /** One line of the list: "12. text". */
  function Entry(tag: string, item: string): string {
    tag + ". " + item
  }

  /** The lines of the list joined by newlines. */
  function Render(tags: seq<string>, items: seq<string>): string
    requires |tags| == |items|
  {
    if items == [] then []
    else if |items| == 1 then Entry(tags[0], items[0])
    else Entry(tags[0], items[0]) + "\n" + Render(tags[1..], items[1..])
  }

  /** The pattern matches at the start of a line, covering the tag, the period and the
      one space before a text that does not start with whitespace. */
  lemma MarkerAtEntry(tag: string, x: string, t: string)
    requires IsOrdinal(tag) && x != [] && !IsSpace(x[0])
    ensures MarkerLength(tag + ". " + x + t) == |tag| + 2
  {
    var s := tag + ". " + x + t;
    assert s == tag + (". " + x + t);
    DigitRunPadded(tag, ". " + x + t);
    assert s[|tag|] == '.' && s[|tag| + 1] == ' ';
    assert s[|tag| + 1..] == " " + (x + t);
    SpaceRunPadded(" ", x + t);
  }

  /** No marker starts at position `i` of a text without inner markers, when what follows
      the text is neither a digit nor a period. */
  lemma NoMarkerAt(x: string, t: string, i: nat)
    requires NoInnerMarker(x) && i < |x|
    requires t == [] || (!IsDigit(t[0]) && t[0] != '.')
    ensures MarkerLength((x + t)[i..]) == 0
  {
    var s := (x + t)[i..];
    var d := DigitRun(s);
    assert forall k :: 0 <= k < |x| - i ==> s[k] == x[i + k];
    assert |x| - i < |s| ==> s[|x| - i] == t[0];
    assert d <= |x| - i;
    if 0 < d && d + 1 < |s| && s[d] == '.' {
      assert d < |x| - i;
      assert IsDigit(s[..d][d - 1]);
      assert DigitDot(x, i + d - 1);
      assert s[d + 1] == x[i + d + 1];
    }
  }

  /** The last line's text: no marker starts anywhere in it. It is stated of `x + []`, the
      shape `Unmarked(x, [])` and `SplitSkip` take for a text with nothing after it. */
  lemma NoMarkerInLast(x: string)
    requires NoInnerMarker(x)
    ensures forall i :: 0 <= i < |x| ==> MarkerLength((x + [])[i..]) == 0
  {
    forall i | 0 <= i < |x| ensures MarkerLength((x + [])[i..]) == 0 {
      NoMarkerAt(x, [], i);
    }
  }

  /** A line's text and the newline after it: no marker starts anywhere in them. */
  lemma NoMarkerInLine(x: string, rest: string)
    requires NoInnerMarker(x)
    ensures forall i :: 0 <= i < |x| + 1 ==> MarkerLength((x + "\n" + rest)[i..]) == 0
  {
    forall i | 0 <= i < |x| + 1 ensures MarkerLength((x + "\n" + rest)[i..]) == 0 {
      assert x + "\n" + rest == x + ("\n" + rest);
      if i < |x| {
        NoMarkerAt(x, "\n" + rest, i);
      } else {
        assert (x + "\n" + rest)[i..][0] == '\n';
      }
    }
  }

  /** The last line of a list: the marker closes the open piece and the text is the
      final piece. */
  lemma SplitLastEntry(acc: string, tag: string, x: string)
    requires IsOrdinal(tag) && Plain(x)
    ensures SplitFrom(acc, Entry(tag, x)) == [acc, x]
  {
    var s := Entry(tag, x);
    assert s == tag + ". " + x + [];
    MarkerAtEntry(tag, x, []);
    assert s[|tag| + 2..] == x;
    SplitAtMarker(acc, s);
    SplitLastText(x);
  }

  /** The last line's text is one piece on its own. */
  lemma SplitLastText(x: string)
    requires NoInnerMarker(x)
    ensures SplitFrom([], x) == [x]
  {
    NoMarkerInLast(x);
    SplitSkip([], x, []);
    assert [] + x == x;
    assert x + [] == x;
  }

  /** A line followed by more lines: the marker closes the open piece, and the text with
      its newline is the piece left open for the next line's marker to close. */
  lemma SplitEntryLine(acc: string, tag: string, x: string, rest: string)
    requires IsOrdinal(tag) && Plain(x)
    ensures SplitFrom(acc, Entry(tag, x) + "\n" + rest) == [acc] + SplitFrom(x + "\n", rest)
  {
    var s := Entry(tag, x) + "\n" + rest;
    assert s == tag + ". " + x + ("\n" + rest);
    MarkerAtEntry(tag, x, "\n" + rest);
    assert s[|tag| + 2..] == x + "\n" + rest;
    SplitAtMarker(acc, s);
    NoMarkerInLine(x, rest);
    SplitSkip([], x + "\n", rest);
    assert [] + (x + "\n") == x + "\n";
  }

  /** The pieces `split` makes of a rendered list: the open piece, then each text, all but
      the last followed by the newline that ended its line. */
  lemma SplitRender(acc: string, tags: seq<string>, items: seq<string>)
    requires |tags| == |items| > 0
    requires forall i :: 0 <= i < |items| ==> IsOrdinal(tags[i]) && Plain(items[i])
    ensures |SplitFrom(acc, Render(tags, items))| == |items| + 1
    ensures SplitFrom(acc, Render(tags, items))[0] == acc
    ensures forall i :: 0 <= i < |items| ==>
      SplitFrom(acc, Render(tags, items))[i + 1] == items[i] + (if i + 1 < |items| then "\n" else "")
  {
    SplitRenderLines(acc, tags, items);
    LinesShape(acc, items);
  }

  /** The pieces of a rendered list, built line by line. */
  function Lines(acc: string, items: seq<string>): seq<string>
    requires items != []
    decreases |items|
  {
    if |items| == 1 then [acc, items[0]] else [acc] + Lines(items[0] + "\n", items[1..])
  }

  lemma {:induction false} SplitRenderLines(acc: string, tags: seq<string>, items: seq<string>)
    requires |tags| == |items| > 0
    requires forall i :: 0 <= i < |items| ==> IsOrdinal(tags[i]) && Plain(items[i])
    ensures SplitFrom(acc, Render(tags, items)) == Lines(acc, items)
    decreases |items|
  {
    if |items| == 1 {
      SplitLastEntry(acc, tags[0], items[0]);
    } else {
      SplitEntryLine(acc, tags[0], items[0], Render(tags[1..], items[1..]));
      assert forall i :: 0 <= i < |items| - 1 ==> tags[1..][i] == tags[i + 1] && items[1..][i] == items[i + 1];
      SplitRenderLines(items[0] + "\n", tags[1..], items[1..]);
    }
  }

  lemma {:induction false} LinesShape(acc: string, items: seq<string>)
    requires items != []
    ensures |Lines(acc, items)| == |items| + 1 && Lines(acc, items)[0] == acc
    ensures forall i :: 0 <= i < |items| ==>
      Lines(acc, items)[i + 1] == items[i] + (if i + 1 < |items| then "\n" else "")
    decreases |items|
  {
    if |items| > 1 {
      LinesShape(items[0] + "\n", items[1..]);
      assert forall i :: 1 <= i < |items| ==> items[1..][i - 1] == items[i];
    }
  }

  /** Round trip: a numbered list of plain texts parses back to exactly those texts,
      numbered 1, 2, … whatever tags the list carried. */
  lemma ParseRender(tags: seq<string>, items: seq<string>)
    requires |tags| == |items|
    requires forall i :: 0 <= i < |items| ==> IsOrdinal(tags[i]) && Plain(items[i])
    ensures Parse(Render(tags, items)) == seq(|items|, i requires 0 <= i < |items| => Question(i + 1, items[i]))
  {
    var s := Render(tags, items);
    if items == [] {
      assert Split(s) == [[]];
      NonBlankFirst([[]]);
    } else {
      var r := Split(s);
      SplitRender([], tags, items);
      TrimPieces(items, r[1..]);
      NonBlankAll(r[1..]);
      NonBlankFirst(r);
    }
    ParseKept(s, items);
  }

  /** A blank first piece is dropped. */
  lemma NonBlankFirst(r: seq<string>)
    requires r != [] && Trim(r[0]) == []
    ensures NonBlank(r) == NonBlank(r[1..])
  {
    assert NonBlank(r) == [] + NonBlank(r[1..]);
  }

  /** The parse numbers the kept pieces, trimmed. */
  lemma ParseKept(text: string, items: seq<string>)
    requires var kept := NonBlank(Split(text));
      |kept| == |items| && forall i :: 0 <= i < |kept| ==> Trim(kept[i]) == items[i]
    ensures Parse(text) == seq(|items|, i requires 0 <= i < |items| => Question(i + 1, items[i]))
  {
  }

  /** Each piece of a rendered list trims back to its line's text. */
  lemma TrimPieces(items: seq<string>, pieces: seq<string>)
    requires |pieces| == |items|
    requires forall i :: 0 <= i < |items| ==> Plain(items[i])
    requires forall i :: 0 <= i < |items| ==> pieces[i] == items[i] + (if i + 1 < |items| then "\n" else "")
    ensures forall i :: 0 <= i < |pieces| ==> Trim(pieces[i]) == items[i] && Trim(pieces[i]) != []
  {
    forall i | 0 <= i < |pieces| ensures Trim(pieces[i]) == items[i] {
      var pad: string := if i + 1 < |items| then "\n" else "";
      assert AllSpace(pad);
      TrimPadded([], items[i], pad);
      assert [] + items[i] + pad == pieces[i];
    }
  }

  /** A digit-free, non-empty, trimmed text is plain. */
  lemma DigitFreePlain(x: string)
    requires x != [] && Trimmed(x) && DigitFree(x)
    ensures Plain(x)
  {
    assert forall j :: 0 <= j < |x| ==> x[j] in x;
  }

  /** A two-line list is the first line, a newline and the second line. */
  lemma RenderTwo(t0: string, t1: string, x0: string, x1: string)
    ensures Render([t0, t1], [x0, x1]) == Entry(t0, x0) + "\n" + Entry(t1, x1)
  {
    assert [t0, t1][1..] == [t1] && [x0, x1][1..] == [x1];
  }

  /** A two-line list parses to its two texts, numbered 1 and 2. */
  lemma ParseTwoLines(t0: string, t1: string, x0: string, x1: string)
    requires IsOrdinal(t0) && IsOrdinal(t1) && Plain(x0) && Plain(x1)
    ensures Parse(Render([t0, t1], [x0, x1])) == [Question(1, x0), Question(2, x1)]
  {
    assert forall i :: 0 <= i < 2 ==> IsOrdinal([t0, t1][i]) && Plain([x0, x1][i]);
    ParseRender([t0, t1], [x0, x1]);
    var e := seq(2, i requires 0 <= i < 2 => Question(i + 1, [x0, x1][i]));
    assert e[0] == Question(1, x0) && e[1] == Question(2, x1);
  }

  /** The two-question reply used as the format's example. */
  lemma ParseTwoQuestions(reply: string)
    requires reply == "1. What is AI?\n2. What is ML?"
    ensures Parse(reply) == [Question(1, "What is AI?"), Question(2, "What is ML?")]
  {
    var t0, t1, x0, x1 := "1", "2", "What is AI?", "What is ML?";
    ExampleParsed(t0, t1, x0, x1);
    ExampleRendered(t0, t1, x0, x1, reply);
  }

  /** The example's tags and lines come in as parameters fixed by the `requires`, so the
      general lemmas apply to them as variables; written inline, the literals make the
      solver unfold every character at once. */
  lemma ExampleParsed(t0: string, t1: string, x0: string, x1: string)
    requires t0 == "1" && t1 == "2" && x0 == "What is AI?" && x1 == "What is ML?"
    ensures Parse(Render([t0, t1], [x0, x1])) == [Question(1, x0), Question(2, x1)]
  {
    DigitFreePlain(x0);
    DigitFreePlain(x1);
    ParseTwoLines(t0, t1, x0, x1);
  }

  /** The example's list, rendered, is the literal reply text. */
  lemma ExampleRendered(t0: string, t1: string, x0: string, x1: string, reply: string)
    requires t0 == "1" && t1 == "2" && x0 == "What is AI?" && x1 == "What is ML?"
    requires reply == "1. What is AI?\n2. What is ML?"
    ensures Render([t0, t1], [x0, x1]) == reply
  {
    RenderTwo(t0, t1, x0, x1);
  }
}
