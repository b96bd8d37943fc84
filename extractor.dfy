/**
 * The fence extractor (extractor.go). Go compiles the pattern
 * (?s)```TAG\n(.*?)``` and collects every match left to right. For a tag with
 * no regular-expression metacharacter the pattern is literal, so the model is a
 * scanner: at the leftmost position where the opener ```TAG\n stands and some
 * later ``` closes it, the body runs up to the FIRST such ``` (the lazy .*?),
 * and scanning resumes right after that closing marker.
 */
module Extractor {
  import opened Wrappers
  import opened Text

  /** The closing marker, and the start of every opener. */
  const Fence: string := "```"

  /** The literal text that opens a block of the given tag. */
  function Opener(tag: string): string
  {
    Fence + tag + "\n"
  }

  /** The tag has no character that a regular expression treats specially, so the pattern matches it literally. */
  predicate LiteralTag(tag: string) {
    forall k :: 0 <= k < |tag| ==> tag[k] !in "\\.+*?()|[]{}^$"
  }

  /** A captured body occupies text[start..end]; its closing marker starts at `end`. */
  datatype Span = Span(start: nat, end: nat)

  /** The characters of `word` stand in `text` from index `q` on. */
  predicate WordAt(text: string, word: string, q: nat)
    decreases |word|
  {
    word == [] || (q < |text| && text[q] == word[0] && WordAt(text, word[1..], q + 1))
  }

  /** WordAt says that the slice of `text` starting at `q` is `word`. */
  lemma {:induction false} WordAtSlice(text: string, word: string, q: nat)
    requires q <= |text|
    ensures WordAt(text, word, q) <==> q + |word| <= |text| && text[q..q + |word|] == word
    decreases |word|
  {
    if word != [] && q < |text| {
      WordAtSlice(text, word[1..], q + 1);
      if q + |word| <= |text| && text[q..q + |word|] == word {
        assert text[q + 1..q + |word|] == word[1..];
      }
      if WordAt(text, word, q) {
        assert text[q..q + |word|] == [text[q]] + text[q + 1..q + |word|];
      }
    }
  }

  /** A non-empty word standing at `q` ends inside the text. */
  lemma {:induction false} WordAtBound(text: string, word: string, q: nat)
    requires WordAt(text, word, q) && word != []
    ensures q + |word| <= |text|
    decreases |word|
  {
    if |word| > 1 {
      WordAtBound(text, word[1..], q + 1);
    }
  }

  /** Two words stand one after the other exactly when their concatenation stands there. */
  lemma {:induction false} WordAtAppend(text: string, a: string, b: string, q: nat)
    ensures WordAt(text, a + b, q) <==> WordAt(text, a, q) && WordAt(text, b, q + |a|)
    decreases |a|
  {
    if a != [] {
      assert (a + b)[0] == a[0];
      assert (a + b)[1..] == a[1..] + b;
      WordAtAppend(text, a[1..], b, q + 1);
    } else {
      assert a + b == b;
    }
  }

  /** The opener of `tag` stands at index `p` of `text`: a triple backtick, the tag, then a newline. */
  predicate OpenerAt(text: string, tag: string, p: nat) {
    WordAt(text, Opener(tag), p)
  }

  /** No backtick stands at an index in [from, to). */
  predicate NoBacktick(text: string, from: nat, to: nat) {
    forall k :: from <= k < to && k < |text| ==> text[k] != '`'
  }

  /** `s` holds no backtick at all. */
  predicate Plain(s: string) {
    forall k :: 0 <= k < |s| ==> s[k] != '`'
  }

  /** A backtick-free word standing at `q` leaves [q, q + |word|) without a backtick. */
  lemma {:induction false} PlainAt(text: string, word: string, q: nat)
    requires WordAt(text, word, q) && Plain(word)
    ensures NoBacktick(text, q, q + |word|)
    decreases |word|
  {
    if word != [] {
      PlainAt(text, word[1..], q + 1);
    }
  }

  /** The first closing marker at or after `from`. */
  function FirstFence(text: string, from: nat): (r: Option<nat>)
    decreases |text| - from
    ensures r.Some? ==> from <= r.value && FenceAt(text, r.value)
  {
    if from + 3 > |text| then None
    else if FenceAt(text, from) then Some(from)
    else FirstFence(text, from + 1)
  }

  /** The closing marker found is the first one: none starts between `from` and it, and none at all when it is missing. */
  lemma {:induction false} FirstFenceIsFirst(text: string, from: nat)
    ensures var r := FirstFence(text, from);
      (r.Some? ==> forall m :: from <= m < r.value ==> !FenceAt(text, m))
      && (r.None? ==> forall m :: from <= m ==> !FenceAt(text, m))
    decreases |text| - from
  {
    if from + 3 <= |text| && !FenceAt(text, from) {
      FirstFenceIsFirst(text, from + 1);
    }
  }

  /** The pattern matches at index `p`: an opener stands there and a closing marker follows it. */
  predicate MatchAt(text: string, tag: string, p: nat) {
    OpenerAt(text, tag, p) && FirstFence(text, p + |Opener(tag)|).Some?
  }

  /**
   * A span as the pattern captures it: the opener stands right before the body,
   * the closing marker right after it, and no closing marker starts inside it.
   */
  predicate Captured(text: string, tag: string, s: Span) {
    |Opener(tag)| <= s.start <= s.end
    && OpenerAt(text, tag, s.start - |Opener(tag)|)
    && FenceAt(text, s.end)
    && forall m :: s.start <= m < s.end ==> !FenceAt(text, m)
  }

  /**
   * Where the pattern next matches: the leftmost index at or after `from` at
   * which an opener stands with a closing marker somewhere after it.
   */
  function NextMatch(text: string, tag: string, from: nat): (r: Option<nat>)
    decreases |text| - from
    ensures r.Some? ==> from <= r.value && MatchAt(text, tag, r.value)
  {
    if from + |Opener(tag)| > |text| then None
    else if MatchAt(text, tag, from) then Some(from)
    else NextMatch(text, tag, from + 1)
  }

  /**
   * The match found is the leftmost one: the pattern matches nowhere between
   * `from` and it, and when none is found it matches nowhere at or after `from`.
   */
  lemma {:induction false} NextMatchLeftmost(text: string, tag: string, from: nat)
    ensures var r := NextMatch(text, tag, from);
      (r.Some? ==> forall q :: from <= q < r.value ==> !MatchAt(text, tag, q))
      && (r.None? ==> forall q :: from <= q ==> !MatchAt(text, tag, q))
    decreases |text| - from
  {
    if from + |Opener(tag)| <= |text| && !MatchAt(text, tag, from) {
      NextMatchLeftmost(text, tag, from + 1);
    } else if from + |Opener(tag)| > |text| {
      forall q | from <= q ensures !MatchAt(text, tag, q) {
        if OpenerAt(text, tag, q) {
          WordAtBound(text, Opener(tag), q);
        }
      }
    }
  }

  /**
   * The span of the leftmost match at or after `from`: from the end of its
   * opener to the first closing marker after it (the lazy `.*?`).
   */
  function NextSpan(text: string, tag: string, from: nat): (r: Option<Span>)
    ensures r.Some? ==> from + |Opener(tag)| <= r.value.start <= r.value.end
    ensures r.Some? ==> r.value.end + |Fence| <= |text|
  {
    match NextMatch(text, tag, from)
    case None => None
    case Some(p) => Some(Span(p + |Opener(tag)|, FirstFence(text, p + |Opener(tag)|).value))
  }

  /**
   * All matches at or after `from`, in document order (FindAllStringSubmatch):
   * take the leftmost match, cut its body at the first closing marker, and
   * resume right after that marker.
   */
  function Scan(text: string, tag: string, from: nat): seq<Span>
    decreases |text| - from
  {
    match NextSpan(text, tag, from)
    case None => []
    case Some(s) => [s] + Scan(text, tag, s.end + |Fence|)
  }

  /**
   * The text a span covers. Every span the scan reports lies inside the text
   * (ScanCaptures), so the empty fallback never applies to them.
   */
  function Slice(text: string, s: Span): (r: string)
    ensures s.start <= s.end <= |text| ==> r == text[s.start..s.end]
  {
    if s.start <= s.end <= |text| then text[s.start..s.end] else ""
  }

  /** The texts the spans cover, in order. */
  function SpanTexts(text: string, spans: seq<Span>): (r: seq<string>)
    ensures |r| == |spans|
    decreases |spans|
  {
    if spans == [] then [] else [Slice(text, spans[0])] + SpanTexts(text, spans[1..])
  }

  /** The bodies of all matches (FindAllStringSubmatch's group 1), in document order. */
  function Captures(text: string, tag: string): seq<string>
  {
    SpanTexts(text, Scan(text, tag, 0))
  }

  /** Each part trimmed, in order. */
  function TrimAll(parts: seq<string>): (r: seq<string>)
    ensures |r| == |parts|
  {
    seq(|parts|, k requires 0 <= k < |parts| => TrimSpace(parts[k]))
  }

  /** The trimmed bodies, as the loop at extractor.go collects them. */
  function Blocks(text: string, tag: string): seq<string>
  {
    TrimAll(Captures(text, tag))
  }

  /** The extractor's result: the trimmed bodies joined by a blank line. */
  function Bundle(text: string, tag: string): string
  {
    Join(Blocks(text, tag), "\n\n")
  }

  /** Trimming one more part appends its trimmed form. */
  lemma TrimAllSnoc(parts: seq<string>, i: nat)
    requires i < |parts|
    ensures TrimAll(parts[..i + 1]) == TrimAll(parts[..i]) + [TrimSpace(parts[i])]
  {
    var a, b := TrimAll(parts[..i + 1]), TrimAll(parts[..i]) + [TrimSpace(parts[i])];
    forall k | 0 <= k < |a| ensures a[k] == b[k] {
      assert parts[..i + 1][k] == parts[k];
      if k < i {
        assert parts[..i][k] == parts[k];
      }
    }
  }

  /** The loop of extractCodeBlocks: each match trimmed and appended, in order. */
  method TrimEach(matches: seq<string>) returns (blocks: seq<string>)
    ensures blocks == TrimAll(matches)
  {
    blocks := [];
    for i := 0 to |matches|
      invariant blocks == TrimAll(matches[..i])
    {
      TrimAllSnoc(matches, i);
      blocks := blocks + [TrimSpace(matches[i])];
    }
    assert matches[..|matches|] == matches;
  }

  /** extractCodeBlocks: all matches of the pattern, trimmed, joined by a blank line. */
  method ExtractCodeBlocks(markdown: string, codeType: string) returns (code: string)
    requires LiteralTag(codeType)
    ensures code == Bundle(markdown, codeType)
  {
    var matches := Captures(markdown, codeType);
    var blocks := TrimEach(matches);
    code := Join(blocks, "\n\n");
  }

  /**
   * The spans are all the matches of the pattern at or after `from`, in
   * document order, as FindAllStringSubmatch reports them: each one is a
   * capture whose opener is the leftmost match at or after the point where
   * the previous one's closing marker ends, and when none is left the
   * pattern matches nowhere further on.
   */
  ghost predicate OrderedCaptures(text: string, tag: string, from: nat, r: seq<Span>)
    decreases |r|
  {
    (r == [] && forall q :: from <= q ==> !MatchAt(text, tag, q))
    || (r != []
        && Captured(text, tag, r[0]) && from + |Opener(tag)| <= r[0].start
        && (forall q :: from <= q && q + |Opener(tag)| < r[0].start ==> !MatchAt(text, tag, q))
        && OrderedCaptures(text, tag, r[0].end + |Fence|, r[1..]))
  }

  /** The leftmost capture, placed before all matches after its closing marker, gives all matches. */
  lemma OrderedCons(text: string, tag: string, from: nat, s: Span, rest: seq<Span>)
    requires Captured(text, tag, s) && from + |Opener(tag)| <= s.start
    requires forall q :: from <= q && q + |Opener(tag)| < s.start ==> !MatchAt(text, tag, q)
    requires OrderedCaptures(text, tag, s.end + |Fence|, rest)
    ensures OrderedCaptures(text, tag, from, [s] + rest)
  {
    assert ([s] + rest)[1..] == rest;
  }

  /** Each span of ordered captures is a capture, and it starts after `from`'s opener. */
  lemma {:induction false} OrderedCaptured(text: string, tag: string, from: nat, r: seq<Span>, k: nat)
    requires OrderedCaptures(text, tag, from, r) && k < |r|
    ensures Captured(text, tag, r[k]) && from + |Opener(tag)| <= r[k].start
    decreases k
  {
    if k > 0 {
      OrderedCaptured(text, tag, r[0].end + |Fence|, r[1..], k - 1);
    }
  }

  /** Ordered captures do not overlap: a later body starts after an earlier closing marker and the next opener. */
  lemma {:induction false} OrderedDisjoint(text: string, tag: string, from: nat, r: seq<Span>, k: nat, l: nat)
    requires OrderedCaptures(text, tag, from, r) && k < l < |r|
    ensures r[k].end + |Fence| + |Opener(tag)| <= r[l].start
    decreases k
  {
    if k == 0 {
      OrderedCaptured(text, tag, r[0].end + |Fence|, r[1..], l - 1);
    } else {
      OrderedDisjoint(text, tag, r[0].end + |Fence|, r[1..], k - 1, l - 1);
    }
  }

  /** The span found is a capture of the pattern. */
  lemma NextSpanCaptured(text: string, tag: string, from: nat)
    ensures var r := NextSpan(text, tag, from);
      r.Some? ==> Captured(text, tag, r.value)
  {
    var next := NextMatch(text, tag, from);
    if next.Some? {
      FirstFenceIsFirst(text, next.value + |Opener(tag)|);
    }
  }

  /** No span is found exactly when the pattern matches nowhere at or after `from`. */
  lemma NextSpanNoneIff(text: string, tag: string, from: nat)
    ensures NextSpan(text, tag, from).None? <==> forall p :: from <= p ==> !MatchAt(text, tag, p)
  {
    NextMatchLeftmost(text, tag, from);
  }

  /**
   * The scan reports every match and nothing else: each span is a capture,
   * its opener is the leftmost match after the previous closing marker, and
   * no match is left after the last one.
   */
  lemma {:induction false} ScanCaptures(text: string, tag: string, from: nat)
    ensures OrderedCaptures(text, tag, from, Scan(text, tag, from))
    decreases |text| - from
  {
    var next := NextSpan(text, tag, from);
    NextMatchLeftmost(text, tag, from);
    if next.Some? {
      var s := next.value;
      NextSpanCaptured(text, tag, from);
      ScanCaptures(text, tag, s.end + |Fence|);
      OrderedCons(text, tag, from, s, Scan(text, tag, s.end + |Fence|));
    }
  }

  /** The scan finds nothing exactly when no match exists at or after `from`. */
  lemma ScanEmptyIff(text: string, tag: string, from: nat)
    ensures Scan(text, tag, from) == [] <==> forall p :: from <= p ==> !MatchAt(text, tag, p)
  {
    NextSpanNoneIff(text, tag, from);
  }

  /** A stretch of text without a backtick holds no match: the scan passes over it. */
  lemma {:induction false} NextMatchSkips(text: string, tag: string, from: nat, to: nat)
    requires from <= to <= |text| && NoBacktick(text, from, to)
    ensures NextMatch(text, tag, from) == NextMatch(text, tag, to)
    decreases |text| - from
  {
    if from < to {
      assert Opener(tag)[0] == '`';
      assert !MatchAt(text, tag, from);
      NextMatchSkips(text, tag, from + 1, to);
    }
  }

  /** The scan passes over a stretch of text without a backtick. */
  lemma ScanSkips(text: string, tag: string, from: nat, to: nat)
    requires from <= to <= |text| && NoBacktick(text, from, to)
    ensures Scan(text, tag, from) == Scan(text, tag, to)
  {
    NextMatchSkips(text, tag, from, to);
    assert NextSpan(text, tag, from) == NextSpan(text, tag, to);
  }

  /** A stretch of text without a backtick holds no closing marker. */
  lemma {:induction false} FirstFenceSkips(text: string, from: nat, to: nat)
    requires from <= to <= |text| && NoBacktick(text, from, to)
    ensures FirstFence(text, from) == FirstFence(text, to)
    decreases |text| - from
  {
    if from < to {
      FirstFenceSkips(text, from + 1, to);
    }
  }

  /**
   * An opener at `p` followed by a backtick-free body and a closing marker at
   * `e` is one match, whose captured span is exactly that body.
   */
  lemma NextSpanAt(text: string, tag: string, p: nat, e: nat)
    requires OpenerAt(text, tag, p) && p + |Opener(tag)| <= e && FenceAt(text, e)
    requires NoBacktick(text, p + |Opener(tag)|, e)
    ensures NextSpan(text, tag, p) == Some(Span(p + |Opener(tag)|, e))
  {
    FirstFenceSkips(text, p + |Opener(tag)|, e);
    assert FirstFence(text, e) == Some(e);
    assert MatchAt(text, tag, p);
  }

  /** Backtick-free prose, then such a block: the block is the next span the scan finds. */
  lemma ProseThenBlock(text: string, tag: string, from: nat, p: nat, e: nat)
    requires from <= p && OpenerAt(text, tag, p) && p + |Opener(tag)| <= e && FenceAt(text, e)
    requires NoBacktick(text, from, p) && NoBacktick(text, p + |Opener(tag)|, e)
    ensures Scan(text, tag, from) == [Span(p + |Opener(tag)|, e)] + Scan(text, tag, e + |Fence|)
  {
    ScanSkips(text, tag, from, p);
    NextSpanAt(text, tag, p, e);
  }

  /** Backtick-free text up to the end holds no match. */
  lemma ProseOnly(text: string, tag: string, from: nat)
    requires from <= |text| && NoBacktick(text, from, |text|)
    ensures Scan(text, tag, from) == []
  {
    ScanSkips(text, tag, from, |text|);
    assert Scan(text, tag, |text|) == [];
  }

  /** The k-th text is the text of the k-th span. */
  lemma {:induction false} SpanTextsIndex(text: string, spans: seq<Span>, k: nat)
    requires k < |spans|
    ensures SpanTexts(text, spans)[k] == Slice(text, spans[k])
    decreases k
  {
    if k > 0 {
      SpanTextsIndex(text, spans[1..], k - 1);
    }
  }

  /** Every captured body is a slice of the text with no closing marker in it. */
  lemma CaptureNoFence(text: string, tag: string, k: nat)
    requires k < |Captures(text, tag)|
    ensures NoFence(Captures(text, tag)[k])
  {
    var spans := Scan(text, tag, 0);
    ScanCaptures(text, tag, 0);
    OrderedCaptured(text, tag, 0, spans, k);
    SpanTextsIndex(text, spans, k);
    var sp := spans[k];
    var body := text[sp.start..sp.end];
    forall m | 0 <= m < |body| ensures !FenceAt(body, m) {
      if FenceAt(body, m) {
        FenceInSlice(text, sp.start, sp.end, m);
      }
    }
  }

  /** Trimming cannot create a closing marker. */
  lemma TrimNoFence(s: string)
    requires NoFence(s)
    ensures NoFence(TrimSpace(s))
  {
    var r := TrimSpace(s);
    var b := LeadingSpace(s);
    TrimSpaceSlice(s);
    forall m | 0 <= m < |r| ensures !FenceAt(r, m) {
      if FenceAt(r, m) {
        FenceInSlice(s, b, b + |r|, m);
      }
    }
  }

  /** The extractor's result never contains a closing marker: every body stops before one. */
  lemma BundleNoFence(text: string, tag: string)
    ensures NoFence(Bundle(text, tag))
  {
    var caps := Captures(text, tag);
    var blocks := Blocks(text, tag);
    forall k | 0 <= k < |blocks| ensures NoFence(blocks[k]) {
      CaptureNoFence(text, tag, k);
      TrimNoFence(caps[k]);
    }
    JoinNoFence(blocks, "\n\n");
  }

  /**
   * The result is empty exactly when there is no match at all, or a single
   * match whose body is only whitespace; two matches always give a
   * non-empty result, because the blank-line separator stays.
   */
  lemma BundleEmptyIff(text: string, tag: string)
    ensures var caps := Captures(text, tag);
      Bundle(text, tag) == "" <==> |caps| == 0 || (|caps| == 1 && AllSpace(caps[0]))
  {
    JoinEmptyIff(Blocks(text, tag), "\n\n");
  }

  /** Where the pattern matches nowhere, the result is empty. */
  lemma BundleNoMatch(text: string, tag: string)
    requires forall p :: !MatchAt(text, tag, p)
    ensures Bundle(text, tag) == ""
  {
    ScanEmptyIff(text, tag, 0);
    BundleEmptyIff(text, tag);
  }

  /**
   * An opener is a triple backtick, the tag, then a newline right after the
   * tag: a text such as ```go\r\n, ```go \n or ```golang\n, where another
   * character follows the tag, does not open a block of that tag.
   */
  lemma OpenerShape(text: string, tag: string, p: nat)
    requires OpenerAt(text, tag, p)
    ensures p + |Fence| + |tag| < |text|
    ensures FenceAt(text, p)
    ensures text[p + |Fence|..p + |Fence| + |tag|] == tag
    ensures text[p + |Fence| + |tag|] == '\n'
  {
    var o := Opener(tag);
    WordAtBound(text, o, p);
    WordAtSlice(text, o, p);
    var w := text[p..p + |o|];
    assert w == o;
    assert o[..3] == Fence && o[3..3 + |tag|] == tag && o[3 + |tag|] == '\n';
    forall i | 0 <= i < |tag| ensures text[p + 3 + i] == tag[i] {
      assert text[p + 3 + i] == w[3 + i] && o[3 + i] == tag[i];
    }
    assert text[p + 3..p + 3 + |tag|] == tag;
    assert text[p + 3 + |tag|] == w[3 + |tag|];
    assert text[p] == w[0] && text[p + 1] == w[1] && text[p + 2] == w[2];
  }

  /** Every block is trimmed: empty, or starting and ending with a non-whitespace character. */
  lemma BlocksTrimmed(text: string, tag: string, k: nat)
    requires k < |Blocks(text, tag)|
    ensures var b := Blocks(text, tag)[k];
      b == [] || (!IsSpace(b[0]) && !IsSpace(b[|b| - 1]))
    ensures Blocks(text, tag)[k] == TrimSpace(Captures(text, tag)[k])
  {
  }

  /** An opener of a non-empty tag needs a triple backtick at `q` and the tag's first character right after it. */
  lemma OpenerStart(text: string, tag: string, q: nat)
    requires tag != []
    ensures OpenerAt(text, tag, q) ==> FenceAt(text, q) && q + |Fence| < |text| && text[q + |Fence|] == tag[0]
  {
    if OpenerAt(text, tag, q) {
      OpenerShape(text, tag, q);
      assert text[q + 3..q + 3 + |tag|][0] == tag[0];
    }
  }

  /** Where no opener of the tag stands between `from` and `stop`, the next match is the one at or after `stop`. */
  lemma {:induction false} NextMatchPast(text: string, tag: string, from: nat, stop: nat)
    requires from <= stop
    requires forall q :: from <= q < stop ==> !OpenerAt(text, tag, q)
    ensures NextMatch(text, tag, from) == NextMatch(text, tag, stop)
    decreases stop - from
  {
    if from < stop {
      NextMatchPast(text, tag, from + 1, stop);
    }
  }

  /**
   * A block of another tag: an opening marker at `p` that does not open a
   * block of `tag` and is not followed by a fourth backtick, and its first
   * closing marker at `e`, followed by the end of the text or by a character
   * that is neither a backtick nor the first of `tag` (a newline, say). The
   * tag and body may hold single or double backticks.
   */
  predicate ForeignBlock(text: string, tag: string, p: nat, e: nat) {
    tag != []
    && FenceAt(text, p) && !OpenerAt(text, tag, p)
    && FenceAt(text, e) && p + |Fence| < e && text[p + |Fence|] != '`'
    && (forall m :: p + |Fence| <= m < e ==> !FenceAt(text, m))
    && (e + |Fence| == |text| || (text[e + |Fence|] != '`' && text[e + |Fence|] != tag[0]))
  }

  /**
   * No opener of `tag` starts anywhere in a block of another tag: not at its
   * opening marker, not inside its tag or body, and not at or inside its
   * closing marker.
   */
  lemma ForeignBlockNoOpener(text: string, tag: string, p: nat, e: nat)
    requires ForeignBlock(text, tag, p, e)
    ensures forall q :: p <= q < e + |Fence| ==> !OpenerAt(text, tag, q)
  {
    forall q | p <= q < e + |Fence| ensures !OpenerAt(text, tag, q) {
      OpenerStart(text, tag, q);
      if p < q < p + |Fence| {
        assert text[p + 3] != '`';
      } else if p + |Fence| <= q < e {
        assert !FenceAt(text, q);
      } else if e <= q && e + |Fence| < |text| {
        assert text[e + 3] != '`' && text[e + 3] != tag[0];
      }
    }
  }

  /**
   * A block of another tag is passed over whole and does not interrupt
   * matching: the scan resumes after its closing marker as if the block
   * were prose.
   */
  lemma ForeignBlockSkipped(text: string, tag: string, p: nat, e: nat)
    requires ForeignBlock(text, tag, p, e)
    ensures Scan(text, tag, p) == Scan(text, tag, e + |Fence|)
  {
    ForeignBlockNoOpener(text, tag, p, e);
    NextMatchPast(text, tag, p, e + |Fence|);
    assert NextSpan(text, tag, p) == NextSpan(text, tag, e + |Fence|);
  }
}
