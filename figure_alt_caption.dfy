/**
 * The figure-caption block processor: a block whose every line holds an
 * image reference, under a parent that is not itself a `figure`, is replaced
 * by a `div` holding one `figure` per line, each with its own `figcaption`.
 * The caption is the alt text of an inline image; a reference-style image
 * gets a `figcaption` with no text.
 *
 * The image pattern (the alternation of the inline-image and the
 * reference-image expressions of the Markdown library) is not modelled as
 * text: it is an abstract `Pattern`, a total function from a line to the
 * result of an unanchored `search`.
 */
module FigureAltCaption {
  import opened Wrappers
  import opened PyStr
  import opened ElementTree

  /**
   * A successful search of the combined pattern, by the alternative that
   * matched, with the alt text between the brackets.
   */
  datatype ImageMatch = InlineImage(alt: string) | ReferenceImage(alt: string)
  {
    /**
     * `group(1)` of the combined pattern.  Group 1 is the first group of the
     * first (inline) alternative; when the reference alternative matched,
     * that group did not take part and Python returns None.
     */
    function Group1(): (g: Option<string>)
      ensures g.Some? <==> InlineImage?
      ensures g.Some? ==> g.value == alt
    {
      match this
      case InlineImage(a) => Some(a)
      case ReferenceImage(_) => None
    }
  }

  /** `FIGURES_RE.search`: None when the pattern occurs nowhere in the line. */
  type Pattern = string -> Option<ImageMatch>

  const NEWLINE: char := '\n'
  const FIGURE_TAG: string := "figure"

  /** The lines of a block, split on every newline. */
  function Lines(block: string): seq<string>
  {
    Split(block, NEWLINE)
  }

  predicate IsImageLine(re: Pattern, line: string)
  {
    re(line).Some?
  }

  /**
   * What `test` decides: every line contains an image reference and the
   * parent is not a `figure`.
   */
  predicate Accepts(re: Pattern, parentTag: string, block: string)
  {
    AcceptsLines(re, parentTag, Lines(block))
  }

  /** The check of `test`, made on every line of a list. */
  predicate AcceptsLines(re: Pattern, parentTag: string, lines: seq<string>)
  {
    forall i :: 0 <= i < |lines| ==> IsImageLine(re, lines[i]) && parentTag != FIGURE_TAG
  }

  /** The caption `run` puts under the figure of an image line. */
  function Caption(re: Pattern, line: string): Option<string>
    requires IsImageLine(re, line)
  {
    re(line).value.Group1()
  }

  /** How many lines, from the first, contain an image reference. */
  function MatchedPrefix(re: Pattern, lines: seq<string>): (n: nat)
    ensures n <= |lines|
    ensures forall k :: 0 <= k < n ==> IsImageLine(re, lines[k])
    ensures n < |lines| ==> !IsImageLine(re, lines[n])
    decreases |lines|
  {
    if |lines| == 0 || !IsImageLine(re, lines[0]) then 0
    else 1 + MatchedPrefix(re, lines[1..])
  }

  /**
   * A finished figure: tagged `figure`, whose text is the line verbatim and
   * whose only child is a childless `figcaption` holding the caption.
   */
  ghost predicate IsFigure(f: Element, line: string, caption: Option<string>)
    reads f, f.children
  {
    f.tag == FIGURE_TAG && f.text == Some(line) &&
    |f.children| == 1 &&
    f.children[0].tag == "figcaption" && f.children[0].text == caption &&
    f.children[0].children == []
  }

  /**
   * A parent tagged `figure` rejects every block: the split always yields a
   * line, and the first line already fails the check.
   */
  lemma InFigureNeverAccepts(re: Pattern, block: string)
    ensures !Accepts(re, FIGURE_TAG, block)
  {
    var lines := Lines(block);
    assert !(IsImageLine(re, lines[0]) && FIGURE_TAG != FIGURE_TAG);
  }

  /**
   * `test` accepts exactly when the parent is not a figure and every line,
   * in the order `run` visits them, has a match, so that `run` then meets
   * no AttributeError.
   */
  lemma AcceptsIffAllMatched(re: Pattern, parentTag: string, block: string)
    ensures Accepts(re, parentTag, block) <==>
      parentTag != FIGURE_TAG && MatchedPrefix(re, Lines(block)) == |Lines(block)|
  {
    var lines := Lines(block);
    var n := MatchedPrefix(re, lines);
    if Accepts(re, parentTag, block) {
      assert parentTag != FIGURE_TAG by { assert IsImageLine(re, lines[0]) && parentTag != FIGURE_TAG; }
      assert forall i :: 0 <= i < |lines| ==> IsImageLine(re, lines[i]);
    }
  }

  /**
   * All or nothing: two blocks joined by a newline are accepted exactly when
   * each is accepted on its own; one bad line rejects the whole block.
   */
  lemma AcceptsConcat(re: Pattern, parentTag: string, a: string, b: string)
    ensures Accepts(re, parentTag, a + [NEWLINE] + b) <==>
      Accepts(re, parentTag, a) && Accepts(re, parentTag, b)
  {
    SplitConcat(a, b, NEWLINE);
    AcceptsLinesAppend(re, parentTag, Lines(a), Lines(b));
  }

  /** The line check holds of two lists together iff it holds of each. */
  lemma AcceptsLinesAppend(re: Pattern, parentTag: string, la: seq<string>, lb: seq<string>)
    ensures AcceptsLines(re, parentTag, la + lb) <==>
      AcceptsLines(re, parentTag, la) && AcceptsLines(re, parentTag, lb)
  {
    if AcceptsLines(re, parentTag, la + lb) {
      AcceptsLinesParts(re, parentTag, la, lb);
    }
    if AcceptsLines(re, parentTag, la) && AcceptsLines(re, parentTag, lb) {
      AcceptsLinesWhole(re, parentTag, la, lb);
    }
  }

  lemma AcceptsLinesParts(re: Pattern, parentTag: string, la: seq<string>, lb: seq<string>)
    requires AcceptsLines(re, parentTag, la + lb)
    ensures AcceptsLines(re, parentTag, la) && AcceptsLines(re, parentTag, lb)
  {
    forall i | 0 <= i < |la| ensures IsImageLine(re, la[i]) && parentTag != FIGURE_TAG {
      assert la[i] == (la + lb)[i];
      assert IsImageLine(re, (la + lb)[i]) && parentTag != FIGURE_TAG;
    }
    forall i | 0 <= i < |lb| ensures IsImageLine(re, lb[i]) && parentTag != FIGURE_TAG {
      assert lb[i] == (la + lb)[|la| + i];
      assert IsImageLine(re, (la + lb)[|la| + i]) && parentTag != FIGURE_TAG;
    }
  }

  lemma AcceptsLinesWhole(re: Pattern, parentTag: string, la: seq<string>, lb: seq<string>)
    requires AcceptsLines(re, parentTag, la) && AcceptsLines(re, parentTag, lb)
    ensures AcceptsLines(re, parentTag, la + lb)
  {
    forall i | 0 <= i < |la + lb| ensures IsImageLine(re, (la + lb)[i]) && parentTag != FIGURE_TAG {
      if i < |la| {
        assert (la + lb)[i] == la[i];
        assert IsImageLine(re, la[i]) && parentTag != FIGURE_TAG;
      } else {
        assert (la + lb)[i] == lb[i - |la|];
        assert IsImageLine(re, lb[i - |la|]) && parentTag != FIGURE_TAG;
      }
    }
  }

  /** A block without a newline is one line: accepted iff that line has an image. */
  lemma AcceptsSingleLine(re: Pattern, parentTag: string, line: string)
    requires NEWLINE !in line
    ensures Accepts(re, parentTag, line) <==> IsImageLine(re, line) && parentTag != FIGURE_TAG
  {
    SplitNoSeparator(line, NEWLINE);
    assert Lines(line)[0] == line;
  }

  /** The exceptions `run` can raise. */
  datatype PyError =
    | IndexError                    // pop from an empty list
    | AttributeError(line: nat)     // `search` found nothing on this line: None has no `group`

  datatype Outcome = Returned | Raised(error: PyError)

  /** The host's list of blocks still to be parsed, mutated in place. */
  class BlockList {
    var items: seq<string>

    constructor (items: seq<string>)
      ensures this.items == items
    {
      this.items := items;
    }

    /** `list.pop(0)`: None (IndexError) when the list is empty. */
    method PopFirst() returns (head: Option<string>)
      modifies this
      ensures old(items) == [] ==> head == None && items == []
      ensures old(items) != [] ==> head == Some(old(items)[0]) && items == old(items)[1..]
    {
      if items == [] {
        head := None;
      } else {
        head := Some(items[0]);
        items := items[1..];
      }
    }
  }

  class FigureCaptionProcessor {
    const figuresRe: Pattern

    constructor (figuresRe: Pattern)
      ensures this.figuresRe == figuresRe
    {
      this.figuresRe := figuresRe;
    }

    /** `test`: is this block one this processor claims? Reads only. */
    method Test(parent: Element, block: string) returns (relevant: bool)
      ensures relevant == Accepts(figuresRe, parent.tag, block)
    {
      var lines := Lines(block);
      var i := 0;
      while i < |lines|
        invariant 0 <= i <= |lines|
        invariant forall k :: 0 <= k < i ==> IsImageLine(figuresRe, lines[k]) && parent.tag != FIGURE_TAG
      {
        var isImage := figuresRe(lines[i]).Some?;
        var isInFigure := parent.tag == FIGURE_TAG;
        if !(isImage && !isInFigure) {
          assert !(IsImageLine(figuresRe, lines[i]) && parent.tag != FIGURE_TAG);
          return false;
        }
        i := i + 1;
      }
      return true;
    }

    /**
     * `run`: pop the first block and append to `parent` a `div` with one
     * figure per line.  Python raises when the list is empty (nothing has
     * changed then) and when a line has no image reference (the block is
     * gone and the `div` holds the figures of the lines before it).
     */
    method Run(parent: Element, blocks: BlockList) returns (outcome: Outcome)
      modifies parent, blocks
      ensures parent.tag == old(parent.tag) && parent.text == old(parent.text)
      ensures old(blocks.items) == [] ==>
        outcome == Raised(IndexError) && blocks.items == [] && parent.children == old(parent.children)
      ensures old(blocks.items) != [] ==>
        blocks.items == old(blocks.items)[1..] &&
        |parent.children| == |old(parent.children)| + 1 &&
        parent.children[..|old(parent.children)|] == old(parent.children)
      ensures old(blocks.items) != [] ==>
        var lines := Lines(old(blocks.items)[0]);
        var n := MatchedPrefix(figuresRe, lines);
        var div := parent.children[|parent.children| - 1];
        fresh(div) && div.tag == "div" && div.text == None &&
        |div.children| == n &&
        (forall k :: 0 <= k < n ==>
           IsFigure(div.children[k], lines[k], Caption(figuresRe, lines[k])) &&
           fresh(div.children[k]) && fresh(div.children[k].children[0])) &&
        (forall j, k :: 0 <= j < k < n ==>
           div.children[j] != div.children[k] &&
           div.children[j].children[0] != div.children[k].children[0]) &&
        outcome == (if n == |lines| then Returned else Raised(AttributeError(n)))
    {
      var popped := blocks.PopFirst();
      if popped.None? {
        return Raised(IndexError);
      }
      var rawBlock := popped.value;
      var lines := Lines(rawBlock);
      var x := parent.SubElement("div");
      var n := AddFigures(x, lines);
      outcome := if n == |lines| then Returned else Raised(AttributeError(n));
    }

    /**
     * The loop of `run`: for each line, search it, then append a `figure`
     * holding the line and, under it, a `figcaption` holding group 1.  It
     * stops at the first line without a match, where Python raises; `n` is
     * the number of figures appended.
     */
    method AddFigures(div: Element, lines: seq<string>) returns (n: nat)
      requires div.children == []
      modifies div
      ensures div.tag == old(div.tag) && div.text == old(div.text)
      ensures n == MatchedPrefix(figuresRe, lines) && |div.children| == n
      ensures forall k :: 0 <= k < n ==>
        IsFigure(div.children[k], lines[k], Caption(figuresRe, lines[k])) &&
        fresh(div.children[k]) && fresh(div.children[k].children[0])
      ensures forall j, k :: 0 <= j < k < n ==>
        div.children[j] != div.children[k] &&
        |div.children[j].children| == |div.children[k].children| == 1 &&
        div.children[j].children[0] != div.children[k].children[0]
    {
      var i := 0;
      while i < |lines|
        invariant 0 <= i <= |lines|
        invariant forall k :: 0 <= k < i ==> IsImageLine(figuresRe, lines[k])
        invariant div.tag == old(div.tag) && div.text == old(div.text) && |div.children| == i
        invariant forall k :: 0 <= k < i ==>
          fresh(div.children[k]) && |div.children[k].children| == 1 && fresh(div.children[k].children[0])
        invariant forall k :: 0 <= k < i ==> IsFigure(div.children[k], lines[k], Caption(figuresRe, lines[k]))
        invariant forall j, k :: 0 <= j < k < i ==>
          div.children[j] != div.children[k] &&
          div.children[j].children[0] != div.children[k].children[0]
      {
        var m := figuresRe(lines[i]);
        if m.None? {
          assert !IsImageLine(figuresRe, lines[i]);
          return i;
        }
        var captionText := m.value.Group1();
        var figure := AppendFigure(div, lines[i], captionText);
        i := i + 1;
      }
      return i;
    }

    /**
     * One turn of the loop of `run`: a `figure` appended to the `div`, with
     * the line as its text and a new `figcaption` child holding the caption.
     */
    method AppendFigure(div: Element, line: string, captionText: Option<string>) returns (figure: Element)
      modifies div
      ensures div.tag == old(div.tag) && div.text == old(div.text)
      ensures div.children == old(div.children) + [figure]
      ensures fresh(figure) && IsFigure(figure, line, captionText) && fresh(figure.children[0])
    {
      figure := div.SubElement(FIGURE_TAG);
      figure.text := Some(line);
      var figcaptionElem := figure.SubElement("figcaption");
      figcaptionElem.text := captionText;
    }

    /**
     * How the host's block parser uses the processor: it offers the head of
     * a non-empty block list to `test`, and calls `run` only when `test`
     * claimed it.  A claimed block then leaves `run` without an exception,
     * as a `div` with one figure per line, that is the newline count plus
     * one; an unclaimed block leaves the tree and the list as they were.
     */
    method TestThenRun(parent: Element, blocks: BlockList) returns (claimed: bool, outcome: Outcome)
      requires blocks.items != []
      modifies parent, blocks
      ensures parent.tag == old(parent.tag) && parent.text == old(parent.text)
      ensures claimed == Accepts(figuresRe, old(parent.tag), old(blocks.items)[0])
      ensures !claimed ==>
        outcome == Returned && blocks.items == old(blocks.items) && parent.children == old(parent.children)
      ensures claimed ==>
        outcome == Returned &&
        blocks.items == old(blocks.items)[1..] &&
        |parent.children| == |old(parent.children)| + 1 &&
        var block := old(blocks.items)[0];
        var lines := Lines(block);
        var div := parent.children[|parent.children| - 1];
        parent.children == old(parent.children) + [div] &&
        fresh(div) && div.tag == "div" && div.text == None &&
        |div.children| == |lines| == Count(block, NEWLINE) + 1 &&
        (forall k :: 0 <= k < |lines| ==>
           IsFigure(div.children[k], lines[k], Caption(figuresRe, lines[k])) &&
           fresh(div.children[k]) && fresh(div.children[k].children[0])) &&
        (forall j, k :: 0 <= j < k < |lines| ==>
           div.children[j] != div.children[k] &&
           div.children[j].children[0] != div.children[k].children[0])
    {
      claimed := Test(parent, blocks.items[0]);
      if !claimed {
        return claimed, Returned;
      }
      ghost var block := blocks.items[0];
      AcceptsIffAllMatched(figuresRe, parent.tag, block);
      SplitLength(block, NEWLINE);
      outcome := Run(parent, blocks);
    }
  }
}
