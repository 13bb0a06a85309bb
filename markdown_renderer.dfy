/**
 * The chat answer renderer (frontend/src/components/shared/MarkdownRenderer.tsx):
 * the content is cut into paragraphs at blank lines, each paragraph becomes a
 * header, a bullet list or a plain paragraph, and inside each piece of text
 * `**...**` runs are set in bold.  The React elements are modelled as the
 * blocks and spans they display.
 */
module MarkdownRenderer {
  import opened Wrappers
  import opened Text
  import opened Collections

  /** A run of text, set plain or in bold. */
  datatype Span = Plain(text: string) | Bold(text: string)

  /** One rendered paragraph: an `<h3>`, a `<ul>` of `<li>`, or a `<p>`. */
  datatype Block = Header(spans: seq<Span>) | BulletList(items: seq<seq<Span>>) | Paragraph(spans: seq<Span>)

  // ---------------------------------------------------------------------------
  // FormattedText: text.split(/(\*\*.*?\*\*)/g)
  // ---------------------------------------------------------------------------

  /** The characters that the regular expression `.` does not match. */
  predicate IsLineTerminator(c: char) {
    c == '\n' || c == '\r' || c == '\U{2028}' || c == '\U{2029}'
  }

  /** `**` occurs at position `k`. */
  predicate MarkerAt(s: string, k: nat) {
    k + 2 <= |s| && s[k] == '*' && s[k + 1] == '*'
  }

  /**
   * The lazy `.*?\*\*` from position `k`: the end of the first `**` at or
   * after `k` with no line terminator before it.
   */
  function CloseFrom(s: string, k: nat): (e: Option<nat>)
    requires k <= |s|
    ensures e.Some? ==> k + 2 <= e.value <= |s| && MarkerAt(s, e.value - 2)
    ensures e.Some? ==> forall j :: k <= j < e.value - 2 ==> !IsLineTerminator(s[j])
    decreases |s| - k
  {
    if k + 2 > |s| then None
    else if MarkerAt(s, k) then Some(k + 2)
    else if IsLineTerminator(s[k]) then None
    else CloseFrom(s, k + 1)
  }

  /** The end of the match `\*\*.*?\*\*` that starts at `q`, if one does. */
  function MatchAt(s: string, q: nat): (e: Option<nat>)
    requires q <= |s|
    ensures e.Some? ==> q + 4 <= e.value <= |s|
  {
    if MarkerAt(s, q) then CloseFrom(s, q + 2) else None
  }

  /**
   * `split` with a capturing pattern, from the piece starting at `p` and the
   * search position `q`: the text before each match, then the match itself,
   * and the text after the last match.
   */
  function SplitFrom(s: string, p: nat, q: nat): (parts: seq<string>)
    requires p <= q <= |s|
    ensures |parts| % 2 == 1
    decreases |s| - q
  {
    if q >= |s| then [s[p..]]
    else
      match MatchAt(s, q)
      case Some(e) => [s[p..q], s[q..e]] + SplitFrom(s, e, e)
      case None => SplitFrom(s, p, q + 1)
  }

  function BoldSplit(text: string): seq<string> {
    SplitFrom(text, 0, 0)
  }

  /** `part.slice(2, -2)`. */
  function Inner(part: string): string {
    if |part| >= 4 then part[2..|part| - 2] else ""
  }

  /** A part that starts and ends with `**` is bold, any other is plain. */
  function SpanOf(part: string): Span {
    if StartsWith(part, "**") && EndsWith(part, "**") then Bold(Inner(part)) else Plain(part)
  }

  /** `FormattedText`: nothing for empty text. */
  function FormattedText(text: string): seq<Span> {
    if text == "" then [] else MapSeq(BoldSplit(text), SpanOf)
  }

  /** A match is `**`, text without a line terminator, and `**`. */
  predicate IsBoldMatch(part: string) {
    |part| >= 4 && MarkerAt(part, 0) && MarkerAt(part, |part| - 2) &&
    forall j :: 2 <= j < |part| - 2 ==> !IsLineTerminator(part[j])
  }

  /** The concatenation of the strings, in order. */
  function Concat(parts: seq<string>): string {
    if parts == [] then "" else parts[0] + Concat(parts[1..])
  }

  lemma ConcatTwo(a: string, b: string, rest: seq<string>)
    ensures Concat([a, b] + rest) == a + (b + Concat(rest))
  {
    var parts := [a, b] + rest;
    assert parts[1..] == [b] + rest && parts[1..][1..] == rest;
  }

  /** The pieces from `p` on put back together are the text from `p` on. */
  lemma {:induction false} SplitFromConcat(s: string, p: nat, q: nat)
    requires p <= q <= |s|
    ensures Concat(SplitFrom(s, p, q)) == s[p..]
    decreases |s| - q
  {
    if q >= |s| {
      assert Concat([s[p..]]) == s[p..] + Concat([]);
    } else {
      match MatchAt(s, q)
      case Some(e) =>
        SplitFromConcat(s, e, e);
        ConcatTwo(s[p..q], s[q..e], SplitFrom(s, e, e));
        assert s[p..] == s[p..q] + (s[q..e] + s[e..]);
      case None =>
        SplitFromConcat(s, p, q + 1);
    }
  }

  /** What `MatchAt` finds is a match. */
  lemma MatchIsBold(s: string, q: nat, e: nat)
    requires q <= |s| && MatchAt(s, q) == Some(e)
    ensures IsBoldMatch(s[q..e])
  {
    var m := s[q..e];
    assert forall j :: 0 <= j < |m| ==> m[j] == s[q + j];
  }

  /** Every odd piece is a match. */
  lemma {:induction false} SplitFromMatches(s: string, p: nat, q: nat)
    requires p <= q <= |s|
    ensures forall i :: 0 <= i < |SplitFrom(s, p, q)| && i % 2 == 1 ==> IsBoldMatch(SplitFrom(s, p, q)[i])
    decreases |s| - q
  {
    if q < |s| {
      match MatchAt(s, q)
      case Some(e) =>
        var rest := SplitFrom(s, e, e);
        SplitFromMatches(s, e, e);
        MatchIsBold(s, q, e);
        var parts := [s[p..q], s[q..e]] + rest;
        assert forall i :: 2 <= i < |parts| ==> parts[i] == rest[i - 2];
      case None =>
        SplitFromMatches(s, p, q + 1);
    }
  }

  /** The split loses nothing: its parts put together are the text. */
  lemma BoldSplitConcat(text: string)
    ensures Concat(BoldSplit(text)) == text
    ensures |BoldSplit(text)| % 2 == 1
  {
    SplitFromConcat(text, 0, 0);
  }

  /** Every odd part is a `**...**` match and is rendered as its inner text in bold. */
  lemma BoldSplitMatches(text: string)
    requires text != ""
    ensures forall i :: 0 <= i < |BoldSplit(text)| && i % 2 == 1 ==>
      IsBoldMatch(BoldSplit(text)[i]) &&
      BoldSplit(text)[i] == "**" + Inner(BoldSplit(text)[i]) + "**" &&
      FormattedText(text)[i] == Bold(Inner(BoldSplit(text)[i]))
  {
    SplitFromMatches(text, 0, 0);
    var parts := BoldSplit(text);
    forall i | 0 <= i < |parts| && i % 2 == 1
      ensures parts[i] == "**" + Inner(parts[i]) + "**"
      ensures FormattedText(text)[i] == Bold(Inner(parts[i]))
    {
      var m := parts[i];
      assert m[..2] == "**" && m[|m| - 2..] == "**";
      assert m == m[..2] + m[2..|m| - 2] + m[|m| - 2..];
    }
  }

  // ---------------------------------------------------------------------------
  // Paragraphs
  // ---------------------------------------------------------------------------

  /** `content.split('\n\n')`. */
  function Paragraphs(content: string): seq<string> {
    SplitOn(content, "\n\n")
  }

  /** `item.replace(/^[-*] /, '')`. */
  function DropMarker(item: string): string {
    if |item| >= 2 && (item[0] == '-' || item[0] == '*') && item[1] == ' ' then item[2..] else item
  }

  predicate NotBlank(line: string) {
    Strip(line) != ""
  }

  /** `trimmed.split('\n').filter(l => l.trim().length > 0)`. */
  function ListLines(trimmed: string): seq<string> {
    Filter(Split(trimmed, '\n'), NotBlank)
  }

  function ListItem(line: string): seq<Span> {
    FormattedText(DropMarker(line))
  }

  predicate IsHeader(trimmed: string) {
    StartsWith(trimmed, "### ")
  }

  predicate IsList(trimmed: string) {
    StartsWith(trimmed, "- ") || StartsWith(trimmed, "* ")
  }

  /** How one paragraph renders. */
  function BlockOf(paragraph: string): Block {
    var trimmed := Strip(paragraph);
    if IsHeader(trimmed) then Header(FormattedText(trimmed[4..]))
    else if IsList(trimmed) then BulletList(MapSeq(ListLines(trimmed), ListItem))
    else Paragraph(FormattedText(paragraph))
  }

  /** `MarkdownRenderer`: nothing for empty content, otherwise one block per paragraph. */
  function Render(content: string): seq<Block> {
    if content == "" then [] else MapSeq(Paragraphs(content), BlockOf)
  }

  /** One block per paragraph, and the paragraphs joined by blank lines are the content. */
  lemma RenderParagraphs(content: string)
    ensures content == "" ==> Render(content) == []
    ensures content != "" ==>
      |Render(content)| == |Paragraphs(content)| &&
      (forall i :: 0 <= i < |Render(content)| ==> Render(content)[i] == BlockOf(Paragraphs(content)[i])) &&
      Join(Paragraphs(content), "\n\n") == content
  {
    JoinSplitOn(content, "\n\n");
  }

  /**
   * Every paragraph is exactly one kind of block: a header when its trimmed
   * text starts with `### `, otherwise a list when it starts with `- ` or
   * `* `, otherwise a paragraph.
   */
  lemma BlockKinds(paragraph: string)
    ensures var t := Strip(paragraph);
      (BlockOf(paragraph).Header? <==> IsHeader(t)) &&
      (BlockOf(paragraph).BulletList? <==> !IsHeader(t) && IsList(t)) &&
      (BlockOf(paragraph).Paragraph? <==> !IsHeader(t) && !IsList(t))
  {
    var t := Strip(paragraph);
    if IsHeader(t) {
      HeaderBlock(paragraph, t);
    } else if IsList(t) {
      ListBlock(paragraph, t);
    } else {
      ParagraphBlock(paragraph, t);
    }
  }

  /** A header keeps the trimmed paragraph after `### `. */
  lemma HeaderBlock(paragraph: string, t: string)
    requires t == Strip(paragraph) && IsHeader(t)
    ensures BlockOf(paragraph) == Header(FormattedText(t[4..])) && t == "### " + t[4..]
  {
    assert t[..4] == "### ";
  }

  /** Any paragraph whose trimmed text is neither a header nor a list is rendered untrimmed. */
  lemma ParagraphBlock(paragraph: string, t: string)
    requires t == Strip(paragraph) && !IsHeader(t) && !IsList(t)
    ensures BlockOf(paragraph) == Paragraph(FormattedText(paragraph))
  {
  }

  /**
   * A list has one item per non-blank line of the trimmed paragraph, in
   * order, each rendered without its bullet; no item spans two lines.
   */
  lemma ListBlock(paragraph: string, t: string)
    requires t == Strip(paragraph) && !IsHeader(t) && IsList(t)
    ensures BlockOf(paragraph) == BulletList(MapSeq(ListLines(t), ListItem))
    ensures forall i :: 0 <= i < |ListLines(t)| ==> '\n' !in ListLines(t)[i] && NotBlank(ListLines(t)[i])
    ensures forall line :: line in Split(t, '\n') ==> (line in ListLines(t) <==> NotBlank(line))
  {
    ListLinesAreLines(t);
  }

  lemma ListLinesAreLines(t: string)
    ensures forall i :: 0 <= i < |ListLines(t)| ==> '\n' !in ListLines(t)[i] && NotBlank(ListLines(t)[i])
    ensures forall line :: line in Split(t, '\n') ==> (line in ListLines(t) <==> NotBlank(line))
  {
    LinesKept(Split(t, '\n'), ListLines(t));
  }

  lemma LinesKept(lines: seq<string>, kept: seq<string>)
    requires kept == Filter(lines, NotBlank)
    requires forall i :: 0 <= i < |lines| ==> '\n' !in lines[i]
    ensures forall i :: 0 <= i < |kept| ==> '\n' !in kept[i] && NotBlank(kept[i])
    ensures forall line :: line in lines ==> (line in kept <==> NotBlank(line))
  {
    FilterIn(lines, NotBlank);
    assert forall i :: 0 <= i < |kept| ==> kept[i] in kept;
  }

  /** A bullet loses only its marker. */
  lemma DropMarkerPrefix(item: string)
    ensures DropMarker(item) == item || (|item| >= 2 && item[1] == ' ' && item[0] in "-*" && item == item[..2] + DropMarker(item))
  {
  }
}
