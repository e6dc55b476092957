/** Breaking a long chat reply into messages the API accepts. Text is bytes. */
module SplitMessage {

  type Text = seq<bv8>

  const NEWLINE: bv8 := 10

  /** Where the line that starts at `start` ends: after its newline, or with the text. */
  function LineEnd(text: Text, start: nat): (end: nat)
    requires start <= |text|
    ensures start <= end <= |text| && (start < |text| ==> start < end)
    decreases |text| - start
  {
    if start == |text| then start
    else if text[start] == NEWLINE then start + 1
    else LineEnd(text, start + 1)
  }

  lemma {:induction false} LineEndExact(text: Text, start: nat, end: nat)
    requires start <= |text|
    ensures LineEnd(text, start) == end <==>
      && start <= end <= |text|
      && (forall i | start <= i < end - 1 :: text[i] != NEWLINE)
      && (if end == start then end == |text| else text[end - 1] == NEWLINE || end == |text|)
    decreases |text| - start
  {
    if start < |text| && text[start] != NEWLINE {
      LineEndExact(text, start + 1, end);
    }
  }

  function Join(chunks: seq<Text>): Text {
    if chunks == [] then [] else Join(chunks[..|chunks| - 1]) + chunks[|chunks| - 1]
  }

  lemma JoinSnoc(chunks: seq<Text>, c: Text)
    ensures Join(chunks + [c]) == Join(chunks) + c
  {
    assert (chunks + [c])[..|chunks|] == chunks;
  }

  lemma Associative(a: Text, b: Text, c: Text)
    ensures a + (b + c) == (a + b) + c
  {
  }

  lemma AppendNothing(a: Text)
    ensures a + [] == a
  {
  }

  lemma Prefixes(text: Text, from: nat, to: nat)
    requires from <= to <= |text|
    ensures text[..from] + text[from..to] == text[..to]
  {
  }

  // ----- Where a message may end -----

  predicate LineStart(text: Text, at: nat) {
    at == 0 || (at <= |text| && text[at - 1] == NEWLINE)
  }

  /** `at` falls inside the line from `start` on, and that line is longer than a message can be. */
  predicate CutsLine(text: Text, max: nat, start: nat, at: nat) {
    start < at < |text| && LineStart(text, start) && at < LineEnd(text, start) && LineEnd(text, start) - start > max
  }

  /**
   * A message may end before the text does for two reasons only: the next line does
   * not fit beside it, or it is full and cuts a line that fits in no message.
   */
  ghost predicate EndAllowed(text: Text, max: nat, chunk: Text, end: nat) {
    || end == |text|
    || (end < |text| && LineStart(text, end) && |chunk| + (LineEnd(text, end) - end) > max)
    || (|chunk| == max && !LineStart(text, end) && exists start: nat :: CutsLine(text, max, start, end))
  }

  ghost predicate MessageOk(text: Text, max: nat, chunks: seq<Text>, j: nat)
    requires j < |chunks|
  {
    0 < |chunks[j]| <= max && EndAllowed(text, max, chunks[j], |Join(chunks[..j + 1])|)
  }

  /** Every message is non-empty, short enough, and ends where it may. */
  ghost predicate Good(text: Text, max: nat, chunks: seq<Text>) {
    forall j: nat | j < |chunks| :: MessageOk(text, max, chunks, j)
  }

  lemma GoodSnoc(text: Text, max: nat, chunks: seq<Text>, c: Text)
    requires Good(text, max, chunks) && 0 < |c| <= max
    requires EndAllowed(text, max, c, |Join(chunks)| + |c|)
    ensures Good(text, max, chunks + [c]) && Join(chunks + [c]) == Join(chunks) + c
  {
    var longer := chunks + [c];
    JoinSnoc(chunks, c);
    forall j: nat | j < |longer|
      ensures MessageOk(text, max, longer, j)
    {
      if j < |chunks| {
        assert longer[..j + 1] == chunks[..j + 1];
        assert MessageOk(text, max, chunks, j);
      } else {
        assert longer[..j + 1] == longer;
      }
    }
  }

  // ----- The algorithm -----

  method Split(text: Text, max: nat) returns (out: seq<Text>)
    requires max >= 1
    ensures Join(out) == text
    ensures |text| <= max ==> out == [text]
    ensures |text| > max ==> Good(text, max, out)
  {
    if |text| <= max {
      assert Join([text]) == Join([]) + text;
      return [text];
    }
    out := [];
    var cur: Text := [];
    var pos := 0;
    var more := true;
    // the lines one by one; a newline at the very end is followed by one empty line
    while more
      invariant pos <= |text| && (if more then LineStart(text, pos) else pos == |text|)
      invariant Join(out) + cur == text[..pos]
      invariant |cur| <= max && Good(text, max, out)
      decreases more, |text| - pos
    {
      var end := LineEnd(text, pos);
      LineEndExact(text, pos, end);
      out, cur := TakeLine(text, max, out, cur, pos, text[pos..end]);
      more := end > pos && text[end - 1] == NEWLINE;
      pos := end;
    }
    assert text[..pos] == text;
    if |cur| > 0 {
      GoodSnoc(text, max, out, cur);
      out := out + [cur];
    }
  }

  /** One more line: it joins the text collected so far, or that ends a message first. */
  method TakeLine(ghost text: Text, max: nat, before: seq<Text>, collected: Text, ghost start: nat, line: Text)
    returns (out: seq<Text>, cur: Text)
    requires max >= 1 && start <= |text| && LineStart(text, start)
    requires line == text[start..LineEnd(text, start)]
    requires |collected| <= max && Good(text, max, before) && Join(before) + collected == text[..start]
    ensures |cur| <= max && Good(text, max, out) && Join(out) + cur == text[..LineEnd(text, start)]
  {
    out, cur := before, collected;
    if |cur| + |line| > max && |cur| > 0 {
      GoodSnoc(text, max, out, cur);
      out := out + [cur];
      cur := [];
    }
    AppendNothing(Join(out));
    Prefixes(text, start, LineEnd(text, start));
    if |line| > max {
      assert cur == [];
      out, cur := CutLong(text, max, out, start, line);
    } else {
      Associative(Join(out), cur, line);
      cur := cur + line;
    }
  }

  /** Cuts full messages off a line that fits in none, and hands back what is left of it. */
  method CutLong(ghost text: Text, max: nat, before: seq<Text>, ghost start: nat, whole: Text)
    returns (out: seq<Text>, line: Text)
    requires max >= 1 && start <= |text| && LineStart(text, start)
    requires whole == text[start..LineEnd(text, start)] && |whole| > max
    requires Good(text, max, before) && Join(before) == text[..start]
    ensures |line| <= max && Good(text, max, out) && Join(out) + line == text[..LineEnd(text, start)]
  {
    out, line := before, whole;
    ghost var pos, end := start, LineEnd(text, start);
    while |line| > max
      invariant start <= pos <= end && line == text[pos..end]
      invariant Join(out) == text[..pos] && Good(text, max, out)
    {
      CutAllowed(text, max, line[..max], start, pos + max);
      GoodSnoc(text, max, out, line[..max]);
      Prefixes(text, pos, pos + max);
      out := out + [line[..max]];
      line := line[max..];
      pos := pos + max;
    }
    Prefixes(text, pos, end);
  }

  lemma CutAllowed(text: Text, max: nat, chunk: Text, start: nat, at: nat)
    requires |chunk| == max && start < at <= |text| && LineStart(text, start)
    requires at < LineEnd(text, start) && LineEnd(text, start) - start > max
    ensures EndAllowed(text, max, chunk, at)
  {
    LineEndExact(text, start, LineEnd(text, start));
    assert CutsLine(text, max, start, at);
  }
}
