/** The question-list parser: the generator's text is split on the ordinal pattern
    /\d+\.\s+/, blank pieces are dropped, the rest are trimmed and numbered by position. */
module Parser {
  import opened Text

  datatype Question = Question(number: nat, question: string)

  /** `s[..k]` is digits `s[..d]`, then a period at `d`, then whitespace up to `k`:
      a text the pattern /\d+\.\s+/ matches as a whole. */
  predicate MarkerAt(s: string, k: int, d: int) {
    0 < d && d + 1 < k <= |s| && AllDigits(s[..d]) && s[d] == '.' && AllSpace(s[d + 1..k])
  }

  /** Length of the match of /\d+\.\s+/ anchored at the start of `s`, 0 when there is none.
      Both runs are greedy: the match is the longest marker-shaped prefix. */
  function MarkerLength(s: string): (n: nat)
    ensures n > 0 ==> MarkerAt(s, n, DigitRun(s)) && (n == |s| || !IsSpace(s[n]))
    ensures n == 0 ==> forall k, d :: !MarkerAt(s, k, d)
  {
    var d := DigitRun(s);
    if 0 < d && d + 1 < |s| && s[d] == '.' && IsSpace(s[d + 1]) then
      var w := SpaceRun(s[d + 1..]);
      MarkerPrefix(s, d, w);
      d + 1 + w
    else
      NoMarkerPrefix(s);
      0
  }

  /** The digits, the period and the whole whitespace run after it form a marker. */
  lemma MarkerPrefix(s: string, d: nat, w: nat)
    requires d == DigitRun(s) && 0 < d && d + 1 < |s| && s[d] == '.' && IsSpace(s[d + 1])
    requires w == SpaceRun(s[d + 1..])
    ensures MarkerAt(s, d + 1 + w, d)
  {
    assert s[d + 1..][0] == s[d + 1];
    assert s[d + 1..][..w] == s[d + 1..d + 1 + w];
  }

  /** Every marker starts with the whole digit run, a period and a space. */
  lemma NoMarkerPrefix(s: string)
    requires var d := DigitRun(s); !(0 < d && d + 1 < |s| && s[d] == '.' && IsSpace(s[d + 1]))
    ensures forall k, d :: !MarkerAt(s, k, d)
  {
    forall k, e | MarkerAt(s, k, e)
      ensures e == DigitRun(s) && e + 1 < |s| && s[e] == '.' && IsSpace(s[e + 1])
    {
      MarkerFacts(s, k, e);
    }
  }

  /** What a marker at the start of `s` says about `s`'s first characters. */
  lemma MarkerFacts(s: string, k: int, e: int)
    requires MarkerAt(s, k, e)
    ensures e == DigitRun(s) && e + 1 < |s| && s[e] == '.' && IsSpace(s[e + 1])
  {
    assert s[e + 1..k][0] == s[e + 1];
    assert forall j :: 0 <= j < e ==> IsDigit(s[j]) by {
      assert forall j :: 0 <= j < e ==> s[..e][j] == s[j];
    }
    var n := DigitRun(s);
    assert forall j :: 0 <= j < n ==> IsDigit(s[j]) by {
      assert forall j :: 0 <= j < n ==> s[..n][j] == s[j];
    }
  }

  /** `String.prototype.split` with the pattern, from a position where the current piece
      `acc` is open and `rest` is still to be scanned: at each position the pattern is tried;
      a match closes the piece and scanning resumes after it. */
  function SplitFrom(acc: string, rest: string): (pieces: seq<string>)
    ensures |pieces| >= 1
    decreases |rest|
  {
    if rest == [] then [acc]
    else
      var n := MarkerLength(rest);
      if n > 0 then [acc] + SplitFrom([], rest[n..])
      else SplitFrom(acc + [rest[0]], rest[1..])
  }

  /** `text.split(/\d+\.\s+/)`: the scan from the start with an empty open piece. */
  function Split(s: string): (pieces: seq<string>)
    ensures |pieces| >= 1
    ensures s == [] ==> pieces == [[]]
  {
    SplitFrom([], s)
  }

  /** The markers `split` removed from `rest`, in order. */
  function MarkersFrom(rest: string): (ms: seq<string>)
    ensures forall m :: m in ms ==> exists d :: MarkerAt(m, |m|, d)
    decreases |rest|
  {
    if rest == [] then []
    else
      var n := MarkerLength(rest);
      if n > 0 then
        MarkerCut(rest, n, DigitRun(rest));
        [rest[..n]] + MarkersFrom(rest[n..])
      else MarkersFrom(rest[1..])
  }

  /** A marker cut out of the text is still a marker. */
  lemma MarkerCut(s: string, k: int, d: int)
    requires MarkerAt(s, k, d)
    ensures MarkerAt(s[..k], k, d)
  {
    assert s[..k][..d] == s[..d];
    assert s[..k][d + 1..k] == s[d + 1..k];
  }

  /** Puts the pieces back together with the markers between them. */
  function Weave(pieces: seq<string>, ms: seq<string>): string
    requires |pieces| == |ms| + 1
  {
    if ms == [] then pieces[0]
    else pieces[0] + ms[0] + Weave(pieces[1..], ms[1..])
  }

  /** Splitting loses nothing but the markers: there is one more piece than markers,
      and the pieces with the markers between them spell out the text again. */
  lemma {:induction false} SplitWeave(acc: string, rest: string)
    ensures |SplitFrom(acc, rest)| == |MarkersFrom(rest)| + 1
    ensures Weave(SplitFrom(acc, rest), MarkersFrom(rest)) == acc + rest
    decreases |rest|, 1
  {
    if rest == [] {
      assert acc + rest == acc;
    } else if MarkerLength(rest) > 0 {
      WeaveAtMarker(acc, rest);
    } else {
      WeaveStep(acc, rest);
    }
  }

  lemma {:induction false} WeaveAtMarker(acc: string, rest: string)
    requires MarkerLength(rest) > 0
    ensures |SplitFrom(acc, rest)| == |MarkersFrom(rest)| + 1
    ensures Weave(SplitFrom(acc, rest), MarkersFrom(rest)) == acc + rest
    decreases |rest|, 0
  {
    var n := MarkerLength(rest);
    SplitAtMarker(acc, rest);
    MarkersAtMarker(rest);
    SplitWeave([], rest[n..]);
    WeaveCons(acc, SplitFrom([], rest[n..]), rest[..n], MarkersFrom(rest[n..]));
    CutJoin(acc, rest, n);
  }

  /** A marker at the scan position is the next marker removed. */
  lemma MarkersAtMarker(rest: string)
    requires MarkerLength(rest) > 0
    ensures MarkersFrom(rest) == [rest[..MarkerLength(rest)]] + MarkersFrom(rest[MarkerLength(rest)..])
  {
  }

  // One step of sequence algebra, kept as its own lemma so that the proof using it stays
  // small for the solver.
  lemma CutJoin(acc: string, rest: string, n: nat)
    requires n <= |rest|
    ensures acc + rest[..n] + ([] + rest[n..]) == acc + rest
  {
    assert [] + rest[n..] == rest[n..];
    assert rest[..n] + rest[n..] == rest;
  }

  lemma {:induction false} WeaveStep(acc: string, rest: string)
    requires rest != [] && MarkerLength(rest) == 0
    ensures |SplitFrom(acc, rest)| == |MarkersFrom(rest)| + 1
    ensures Weave(SplitFrom(acc, rest), MarkersFrom(rest)) == acc + rest
    decreases |rest|, 0
  {
    SplitStep(acc, rest);
    SplitWeave(acc + [rest[0]], rest[1..]);
    ConsJoin(acc, rest);
  }

  // One step of sequence algebra, kept as its own lemma so that the proof using it stays
  // small for the solver.
  lemma ConsJoin(acc: string, rest: string)
    requires rest != []
    ensures acc + [rest[0]] + rest[1..] == acc + rest
  {
    assert [rest[0]] + rest[1..] == rest;
  }

  /** No marker at the scan position: the character joins the open piece. */
  lemma SplitStep(acc: string, rest: string)
    requires rest != [] && MarkerLength(rest) == 0
    ensures SplitFrom(acc, rest) == SplitFrom(acc + [rest[0]], rest[1..])
    ensures MarkersFrom(rest) == MarkersFrom(rest[1..])
  {
  }

  /** Weaving a first piece and a first marker in front. */
  lemma WeaveCons(p: string, pieces: seq<string>, m: string, ms: seq<string>)
    requires |pieces| == |ms| + 1
    ensures Weave([p] + pieces, [m] + ms) == p + m + Weave(pieces, ms)
  {
    assert ([p] + pieces)[1..] == pieces && ([m] + ms)[1..] == ms;
  }

  /** A marker at the scan position closes the open piece. */
  lemma SplitAtMarker(acc: string, rest: string)
    requires MarkerLength(rest) > 0
    ensures SplitFrom(acc, rest) == [acc] + SplitFrom([], rest[MarkerLength(rest)..])
  {
  }

  /** Scanning over a stretch `x` where no marker starts only extends the open piece. */
  lemma SplitSkip(acc: string, x: string, tail: string)
    requires forall i :: 0 <= i < |x| ==> MarkerLength((x + tail)[i..]) == 0
    ensures SplitFrom(acc, x + tail) == SplitFrom(acc + x, tail)
  {
    var s := x + tail;
    SkipFrom(acc, s, 0, |x|);
    assert s[..0] == [] && s[0..] == s && acc + [] == acc;
    assert s[..|x|] == x && s[|x|..] == tail;
  }

  /** The scan from position `k` of `s` to position `n`, none of which starts a marker. */
  lemma {:induction false} SkipFrom(acc: string, s: string, k: nat, n: nat)
    requires k <= n <= |s|
    requires forall i :: 0 <= i < n ==> MarkerLength(s[i..]) == 0
    ensures SplitFrom(acc + s[..k], s[k..]) == SplitFrom(acc + s[..n], s[n..])
    decreases n - k
  {
    if k < n {
      var rest := s[k..];
      assert MarkerLength(rest) == 0 && rest != [];
      assert rest[0] == s[k] && rest[1..] == s[k + 1..];
      assert acc + s[..k] + [s[k]] == acc + s[..k + 1];
      SkipFrom(acc, s, k + 1, n);
    }
  }

  /** No match of the pattern starts anywhere in `x` when `tail` follows it. */
  predicate Unmarked(x: string, tail: string) {
    forall i :: 0 <= i < |x| ==> MarkerLength((x + tail)[i..]) == 0
  }

  /** `pieces` and `ms` describe a text cut at its matches: each `ms[i]` is the whole match
      found where it starts, and no match starts inside a piece, given what follows it. */
  predicate Cuts(pieces: seq<string>, ms: seq<string>)
    requires |pieces| == |ms| + 1
    decreases |ms|
  {
    if ms == [] then Unmarked(pieces[0], [])
    else
      var after := Weave(pieces[1..], ms[1..]);
      Unmarked(pieces[0], ms[0] + after)
      && ms[0] != [] && MarkerLength(ms[0] + after) == |ms[0]|
      && Cuts(pieces[1..], ms[1..])
  }

  /** The converse of `SplitWeave`: a text put together from pieces and the matches
      between them, with no match inside a piece, splits into exactly those pieces. */
  lemma {:induction false} SplitCuts(acc: string, pieces: seq<string>, ms: seq<string>)
    requires |pieces| == |ms| + 1 && Cuts(pieces, ms)
    ensures SplitFrom(acc, Weave(pieces, ms)) == [acc + pieces[0]] + pieces[1..]
    decreases |ms|
  {
    if ms == [] {
      SplitSkip(acc, pieces[0], []);
      assert pieces[0] + [] == pieces[0];
      assert pieces[1..] == [];
    } else {
      var after := Weave(pieces[1..], ms[1..]);
      var t := ms[0] + after;
      WeaveJoin(pieces[0], ms[0], after);
      SplitSkip(acc, pieces[0], t);
      SplitAtMarker(acc + pieces[0], t);
      assert t[|ms[0]|..] == after;
      SplitCuts([], pieces[1..], ms[1..]);
      UnconsJoin(pieces);
    }
  }

  // One step of sequence algebra, kept as its own lemma so that the proof using it stays
  // small for the solver.
  lemma WeaveJoin(p: string, m: string, after: string)
    ensures p + m + after == p + (m + after)
  {
  }

  // One step of sequence algebra, kept as its own lemma so that the proof using it stays
  // small for the solver.
  lemma UnconsJoin(pieces: seq<string>)
    requires |pieces| >= 2
    ensures [[] + pieces[1..][0]] + pieces[1..][1..] == pieces[1..]
  {
    assert [] + pieces[1] == pieces[1];
  }

  /** `filter((item) => item.trim())`: the pieces that are not blank, in order. */
  function NonBlank(pieces: seq<string>): (kept: seq<string>)
    ensures |kept| <= |pieces|
    ensures forall x :: x in kept <==> x in pieces && Trim(x) != []
  {
    if pieces == [] then []
    else (if Trim(pieces[0]) != [] then [pieces[0]] else []) + NonBlank(pieces[1..])
  }

  /** A question list as the page keeps it: numbered 1, 2, … by position, and every
      question non-empty with no whitespace at either end. */
  predicate WellFormed(qs: seq<Question>) {
    forall i :: 0 <= i < |qs| ==> qs[i].number == i + 1 && qs[i].question != [] && Trimmed(qs[i].question)
  }

  /** The parse of the generator's text: the non-blank pieces, trimmed and numbered by
      position; at most one question per piece. */
  function Parse(text: string): (qs: seq<Question>)
    ensures |qs| <= |Split(text)|
    ensures WellFormed(qs)
  {
    var kept := NonBlank(Split(text));
    assert forall i :: 0 <= i < |kept| ==> kept[i] in kept;
    seq(|kept|, i requires 0 <= i < |kept| => Question(i + 1, Trim(kept[i])))
  }

  /** The filter keeps the order of the pieces: filtering a concatenation filters each part. */
  lemma {:induction false} NonBlankAppend(a: seq<string>, b: seq<string>)
    ensures NonBlank(a + b) == NonBlank(a) + NonBlank(b)
  {
    if a == [] {
      assert a + b == b;
    } else {
      var x, r := a[0], a[1..];
      ConsSplit(a, b);
      NonBlankCons(x, r + b);
      NonBlankCons(x, r);
      NonBlankAppend(r, b);
      var k := if Trim(x) != [] then [x] else [];
      AppendAssoc(k, NonBlank(r), NonBlank(b));
    }
  }

  // One step of sequence algebra, kept as its own lemma so that the proof using it stays
  // small for the solver.
  lemma ConsSplit(a: seq<string>, b: seq<string>)
    requires a != []
    ensures a == [a[0]] + a[1..] && a + b == [a[0]] + (a[1..] + b)
  {
  }

  /** One step of the filter. */
  lemma NonBlankCons(x: string, rest: seq<string>)
    ensures NonBlank([x] + rest) == (if Trim(x) != [] then [x] else []) + NonBlank(rest)
  {
    assert ([x] + rest)[0] == x && ([x] + rest)[1..] == rest;
  }

  // One step of sequence algebra, kept as its own lemma so that the proof using it stays
  // small for the solver.
  lemma AppendAssoc(k: seq<string>, m: seq<string>, n: seq<string>)
    ensures k + (m + n) == k + m + n
  {
  }

  /** Keeping every piece when none is blank. */
  lemma {:induction false} NonBlankAll(pieces: seq<string>)
    requires forall i :: 0 <= i < |pieces| ==> Trim(pieces[i]) != []
    ensures NonBlank(pieces) == pieces
  {
    if pieces != [] {
      NonBlankAll(pieces[1..]);
    }
  }

  /** Text with no ordinal marker anywhere parses to one question, the trimmed text,
      or to nothing when it is blank. */
  lemma ParseUnmarked(text: string)
    requires forall i :: 0 <= i < |text| ==> MarkerLength(text[i..]) == 0
    ensures Parse(text) == if AllSpace(text) then [] else [Question(1, Trim(text))]
  {
    SplitUnmarked(text);
    NonBlankOne(text);
    var qs := Parse(text);
    if !AllSpace(text) {
      assert |qs| == 1 && qs[0] == Question(1, Trim(text));
    }
  }

  /** Text with no marker is one piece. */
  lemma SplitUnmarked(text: string)
    requires forall i :: 0 <= i < |text| ==> MarkerLength(text[i..]) == 0
    ensures Split(text) == [text]
  {
    assert text + [] == text;
    SplitSkip([], text, []);
    assert [] + text == text;
  }

  lemma NonBlankOne(x: string)
    ensures NonBlank([x]) == if Trim(x) != [] then [x] else []
  {
    assert [x][1..] == [];
  }

  /** A marker needs a digit: digit-free text has none. */
  lemma DigitFreeUnmarked(text: string)
    requires DigitFree(text)
    ensures forall i :: 0 <= i < |text| ==> MarkerLength(text[i..]) == 0
  {
    forall i | 0 <= i < |text| ensures MarkerLength(text[i..]) == 0 {
      assert text[i..][0] == text[i] && text[i] in text;
    }
  }
}
