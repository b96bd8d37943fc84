/**
 * Markdown documents assembled from prose and fenced blocks, and what the
 * extractor returns for them: rendering blocks into a document and extracting
 * them again gives back exactly the bodies that were written.
 */
module Documents {
  import opened Text
  import opened Extractor

  /**
   * A markdown document with the given blocks of `tag`: prose[0], then block 0
   * (opener, body, closing marker), then prose[1], and so on up to the last prose.
   */
  function Document(prose: seq<string>, bodies: seq<string>, tag: string): (d: string)
    requires |prose| == |bodies| + 1
    decreases |bodies|
  {
    if bodies == [] then prose[0]
    else prose[0] + Opener(tag) + bodies[0] + Fence + Document(prose[1..], bodies[1..], tag)
  }

  /**
   * Where the pieces of a document lie in `text` from `from` on: each prose,
   * opener, body and closing marker at its offset, and the text ends with the
   * last prose.
   */
  predicate Layout(text: string, tag: string, from: nat, prose: seq<string>, bodies: seq<string>)
    requires |prose| == |bodies| + 1
    decreases |bodies|
  {
    WordAt(text, prose[0], from)
    && if bodies == [] then from + |prose[0]| == |text|
       else
         var p := from + |prose[0]|;
         var e := p + |Opener(tag)| + |bodies[0]|;
         OpenerAt(text, tag, p) && WordAt(text, bodies[0], p + |Opener(tag)|)
         && FenceAt(text, e) && Layout(text, tag, e + |Fence|, prose[1..], bodies[1..])
  }

  /** One block of a document, unfolded: leading prose, opener, body, closing marker, then the rest. */
  lemma DocumentUnfold(prose: seq<string>, bodies: seq<string>, tag: string)
    requires |prose| == |bodies| + 1 && bodies != []
    ensures Document(prose, bodies, tag)
      == prose[0] + (Opener(tag) + (bodies[0] + (Fence + Document(prose[1..], bodies[1..], tag))))
  {
  }

  /** The closing marker written at `e` is a closing marker there. */
  lemma FenceWord(text: string, e: nat)
    requires WordAt(text, Fence, e)
    ensures FenceAt(text, e)
  {
    assert Fence[1..] == "``" && Fence[1..][1..] == "`";
    assert WordAt(text, "``", e + 1) && WordAt(text, "`", e + 2);
  }

  /** A text that holds a whole document from `from` to its end has the document's layout there. */
  lemma {:induction false} DocumentLayout(text: string, tag: string, from: nat, prose: seq<string>, bodies: seq<string>)
    requires |prose| == |bodies| + 1
    requires WordAt(text, Document(prose, bodies, tag), from)
    requires from + |Document(prose, bodies, tag)| == |text|
    ensures Layout(text, tag, from, prose, bodies)
    decreases |bodies|
  {
    if bodies != [] {
      DocumentUnfold(prose, bodies, tag);
      var rest := Document(prose[1..], bodies[1..], tag);
      var p := from + |prose[0]|;
      var s := p + |Opener(tag)|;
      var e := s + |bodies[0]|;
      WordAtAppend(text, prose[0], Opener(tag) + (bodies[0] + (Fence + rest)), from);
      WordAtAppend(text, Opener(tag), bodies[0] + (Fence + rest), p);
      WordAtAppend(text, bodies[0], Fence + rest, s);
      WordAtAppend(text, Fence, rest, e);
      FenceWord(text, e);
      DocumentLayout(text, tag, e + |Fence|, prose[1..], bodies[1..]);
    }
  }

  /** The text of a span is the word written there. */
  lemma SliceWord(text: string, word: string, q: nat)
    requires WordAt(text, word, q) && q <= |text|
    ensures Slice(text, Span(q, q + |word|)) == word
  {
    WordAtSlice(text, word, q);
  }

  /** The texts of a span followed by more spans: that span's text, then theirs. */
  lemma SpanTextsCons(text: string, s: Span, rest: seq<Span>)
    ensures SpanTexts(text, [s] + rest) == [Slice(text, s)] + SpanTexts(text, rest)
  {
    assert ([s] + rest)[1..] == rest;
  }

  /**
   * Prose, then a block with the given body: the scan's first text is the
   * body, and the rest is what the scan finds after the closing marker.
   */
  lemma LayoutStep(text: string, tag: string, from: nat, prose: string, body: string)
    requires from <= |text| && Plain(prose) && Plain(body)
    requires WordAt(text, prose, from) && OpenerAt(text, tag, from + |prose|)
    requires WordAt(text, body, from + |prose| + |Opener(tag)|)
    requires FenceAt(text, from + |prose| + |Opener(tag)| + |body|)
    ensures SpanTexts(text, Scan(text, tag, from))
      == [body] + SpanTexts(text, Scan(text, tag, from + |prose| + |Opener(tag)| + |body| + |Fence|))
  {
    var p := from + |prose|;
    var s := p + |Opener(tag)|;
    var e := s + |body|;
    PlainAt(text, prose, from);
    PlainAt(text, body, s);
    ProseThenBlock(text, tag, from, p, e);
    SliceWord(text, body, s);
    SpanTextsCons(text, Span(s, e), Scan(text, tag, e + |Fence|));
  }

  /**
   * Scanning from where a document's layout starts finds one span per block,
   * and each span holds exactly that block's body.
   */
  lemma {:induction false} LayoutScan(text: string, tag: string, from: nat, prose: seq<string>, bodies: seq<string>)
    requires |prose| == |bodies| + 1 && from <= |text|
    requires Layout(text, tag, from, prose, bodies)
    requires forall i :: 0 <= i < |prose| ==> Plain(prose[i])
    requires forall i :: 0 <= i < |bodies| ==> Plain(bodies[i])
    ensures SpanTexts(text, Scan(text, tag, from)) == bodies
    decreases |bodies|
  {
    if bodies == [] {
      PlainAt(text, prose[0], from);
      ProseOnly(text, tag, from);
    } else {
      var next := from + |prose[0]| + |Opener(tag)| + |bodies[0]| + |Fence|;
      LayoutStep(text, tag, from, prose[0], bodies[0]);
      LayoutScan(text, tag, next, prose[1..], bodies[1..]);
      assert bodies == [bodies[0]] + bodies[1..];
    }
  }

  /**
   * Round trip: when neither the prose nor the bodies contain a backtick, the
   * extractor captures exactly the bodies written into the document, in order,
   * and returns them trimmed and joined by a blank line.
   */
  lemma ExtractDocument(text: string, prose: seq<string>, bodies: seq<string>, tag: string)
    requires |prose| == |bodies| + 1 && text == Document(prose, bodies, tag)
    requires forall i :: 0 <= i < |prose| ==> Plain(prose[i])
    requires forall i :: 0 <= i < |bodies| ==> Plain(bodies[i])
    ensures Captures(text, tag) == bodies
    ensures Bundle(text, tag) == Join(TrimAll(bodies), "\n\n")
  {
    assert text[0..|text|] == text;
    WordAtSlice(text, text, 0);
    DocumentLayout(text, tag, 0, prose, bodies);
    LayoutScan(text, tag, 0, prose, bodies);
  }

  /** A line without surrounding whitespace, followed by a newline, trims to the line. */
  lemma TrimLine(body: string)
    requires |body| >= 2 && body[|body| - 1] == '\n'
    requires !IsSpace(body[0]) && !IsSpace(body[|body| - 2])
    ensures TrimSpace(body) == body[..|body| - 1]
  {
    assert AllSpace(body[|body| - 1..]);
    assert body[..0] == [];
    TrimSpaceIs(body, 0, |body| - 1);
  }

  /** The prose between and around the two blocks of the example below. */
  const TwoGoProse: seq<string> := ["text\n", "\nmore\n", "\n"]
  /** The bodies of the two blocks of the example below. */
  const TwoGoBodies: seq<string> := ["func A(){}\n", "func B(){}\n"]

  /** The example markdown is the document built from that prose and those bodies. */
  lemma TwoGoDocument(markdown: string)
    requires markdown == "text\n" + ("```go\n" + ("func A(){}\n" + ("```" + ("\nmore\n"
                         + ("```go\n" + ("func B(){}\n" + ("```" + "\n")))))))
    ensures markdown == Document(TwoGoProse, TwoGoBodies, "go")
  {
    assert Opener("go") == "```go\n";
    assert Document(TwoGoProse[2..], TwoGoBodies[2..], "go") == "\n";
    DocumentUnfold(TwoGoProse[1..], TwoGoBodies[1..], "go");
    DocumentUnfold(TwoGoProse, TwoGoBodies, "go");
  }

  /** Two go blocks among prose: both bodies, trimmed, joined by a blank line. */
  lemma TwoGoBlocks(markdown: string)
    requires markdown == "text\n" + ("```go\n" + ("func A(){}\n" + ("```" + ("\nmore\n"
                         + ("```go\n" + ("func B(){}\n" + ("```" + "\n")))))))
    ensures Bundle(markdown, "go") == "func A(){}" + "\n\n" + "func B(){}"
  {
    TwoGoDocument(markdown);
    TwoGoBundle(markdown);
  }

  /** The example document extracts to both bodies, trimmed, joined by a blank line. */
  lemma TwoGoBundle(markdown: string)
    requires markdown == Document(TwoGoProse, TwoGoBodies, "go")
    ensures Bundle(markdown, "go") == "func A(){}" + "\n\n" + "func B(){}"
  {
    TwoGoPlain();
    ExtractDocument(markdown, TwoGoProse, TwoGoBodies, "go");
    TwoGoTrimmed(TwoGoBodies);
    assert ["func A(){}", "func B(){}"][1..] == ["func B(){}"];
  }

  /** Neither the example's prose nor its bodies contain a backtick. */
  lemma TwoGoPlain()
    ensures forall i :: 0 <= i < |TwoGoProse| ==> Plain(TwoGoProse[i])
    ensures forall i :: 0 <= i < |TwoGoBodies| ==> Plain(TwoGoBodies[i])
  {
  }

  /** Trimming drops the final newline of each body. */
  lemma TwoGoTrimmed(bodies: seq<string>)
    requires bodies == TwoGoBodies
    ensures TrimAll(bodies) == ["func A(){}", "func B(){}"]
  {
    var a, b := bodies[0], bodies[1];
    assert a == "func A(){}\n" && b == "func B(){}\n";
    TrimLine(a);
    TrimLine(b);
    assert a[..10] == "func A(){}" && b[..10] == "func B(){}";
  }
}
