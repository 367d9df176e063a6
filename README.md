# figureAltCaption in Dafny

A model of `FigureCaptionProcessor`, the one block processor of the
figureAltCaption Python-Markdown extension. A paragraph block whose every
line contains an image reference, under a parent that is not already a
`figure`, is replaced by a `div` that holds one `figure` per line. Each
`figure` keeps the line verbatim as its text (the later inline pass turns it
into an `<img>`) and has its own `figcaption` child. For an inline image
(`![alt](url)`) the caption is the alt text. For a reference-style image
(`![alt][ref]`) the `figcaption` has no text.

Files:

- `wrappers.dfy`: `Option`, standing for Python's `None`.
- `pystr.dfy`: `str.split` on a one-character separator (`Split`), its
  inverse `Join`, `Count`, and the round trips and length law between them.
- `element_tree.dfy`: the ElementTree element (`tag`, `text`, `children`)
  as a class, with `SubElement`, which appends a fresh child.
- `figure_alt_caption.dfy`: the image pattern, the acceptance predicate
  `Accepts`, the block list with `pop(0)`, the processor's `Test` and `Run`
  methods (the loop of `run` is `AddFigures`, one turn of it
  `AppendFigure`), `TestThenRun` for the host's call of `test` and then
  `run`, and the lemmas about acceptance.

How the code is read:

- The image pattern `FIGURES_RE` joins the inline-image and the
  reference-image expressions of the Markdown library with `|`. Their text is
  not part of this model. The pattern is an abstract `Pattern`: a total
  function from a line to the result of `search`. `None` means no match.
  Otherwise the result names the alternative that matched and the alt text.
- `search` is not anchored. A line is an image line when the pattern occurs
  anywhere in it. The comment at figureAltCaption.py:41 describes a match
  from line start to line end, and the docstring at figureAltCaption.py:1-2
  speaks of an image that stands alone in its paragraph. The code at
  figureAltCaption.py:50 and :63 uses `search`, which does not anchor, and
  the model follows the code.
- `group(1)` is the first group of the first alternative, the inline form.
  When only the reference alternative matches, that group takes no part and
  Python returns `None`. So a reference-style image gets a `figcaption` with
  no text (`ImageMatch.Group1`). The docstring at figureAltCaption.py:1-2
  says that every standalone image gets a caption. For a reference-style
  image the code does not give one, and the model follows the code.
- `test` stops at the first line that fails. The check of the parent's tag
  is made inside the loop. The split always yields at least one line, so a
  `figure` parent rejects every block, the empty block included.
- `run` does not check its input. It raises when the block list is empty
  (`IndexError` from `pop(0)`, with nothing changed). It also raises when a
  line has no match (`AttributeError` on `None.group`). In that case the
  block is already popped, and the `div` is already attached with the
  figures of the earlier lines. `Run` returns these cases as an `Outcome`.
  `AcceptsIffAllMatched` shows that, after `test` accepted the block, `Run`
  meets no `AttributeError`. `IndexError` is ruled out only because the
  host calls `test` on the first block of a non-empty list.
  `TestThenRun` states the two steps together. When `test` accepts, `run`
  returns normally and builds one figure per line, that is the newline count
  plus one. When `test` rejects, nothing changes.
- `test` has no `modifies` clause, so the model shows that it changes
  nothing. `Run` may change only `parent` and the block list. Every element
  it creates is fresh, and no two figures share a `figcaption`.

## Model

| member | source | states |
|---|---|---|
| PyStr.Split | figureAltCaption.py:48 | `block.split("\n")` always has at least one line, and no line contains a newline |
| PyStr.JoinSplit | figureAltCaption.py:48 | joining the lines back with newlines gives the block itself, so no text is lost or reordered by the split |
| PyStr.SplitJoin | figureAltCaption.py:60 | splitting the newline-join of newline-free lines gives back exactly those lines |
| PyStr.SplitLength | figureAltCaption.py:60-62 | the number of lines, and so of figures, is the number of newlines plus one |
| PyStr.SplitConcat | figureAltCaption.py:48 | the lines of `a + "\n" + b` are the lines of `a` followed by the lines of `b` |
| PyStr.SplitNoSeparator | figureAltCaption.py:48 | a block without a newline is a single line, itself |
| ElementTree.Element.SubElement | figureAltCaption.py:61 | `SubElement` appends one fresh element with the given tag, no text and no children as the last child, and leaves the earlier children, the tag and the text as they were |
| FigureAltCaption.ImageMatch.Group1 | figureAltCaption.py:45 | group 1 is present exactly when the inline alternative matched, and then it is the alt text |
| FigureAltCaption.MatchedPrefix | figureAltCaption.py:62-63 | the lines before the returned index all match, and the line at that index, if any, does not; `run` raises at that index |
| FigureAltCaption.InFigureNeverAccepts | figureAltCaption.py:48-54 | under a `figure` parent, `test` rejects every block |
| FigureAltCaption.AcceptsIffAllMatched | figureAltCaption.py:48-63 | `test` accepts exactly when the parent is not a `figure` and every line that `run` will search has a match |
| FigureAltCaption.AcceptsConcat | figureAltCaption.py:49-55 | all or nothing: a block of two parts is accepted exactly when both parts are accepted |
| FigureAltCaption.AcceptsLinesAppend | figureAltCaption.py:49-54 | the per-line check holds of two line lists together exactly when it holds of each, whatever the other lines are |
| FigureAltCaption.AcceptsSingleLine | figureAltCaption.py:48-55 | a block with one line is accepted exactly when that line has an image match and the parent is not a `figure` |
| FigureAltCaption.BlockList.PopFirst | figureAltCaption.py:58 | `pop(0)` returns the head and leaves the tail in order, or reports the empty list and changes nothing |
| FigureAltCaption.FigureCaptionProcessor.Test | figureAltCaption.py:46-55 | the loop with early return decides exactly `Accepts`: every line contains an image and the parent is not a `figure` |
| FigureAltCaption.FigureCaptionProcessor.Run | figureAltCaption.py:57-73 | removes exactly the head block and keeps the rest in order; appends exactly one fresh `div` after `parent`'s unchanged children; the `div` holds, in line order, one fresh `figure` per matched line, all distinct and each with its own fresh `figcaption`, whose text is the line verbatim and whose only child is a fresh `figcaption` with the line's group 1; it returns normally when every line matched and otherwise raises `AttributeError` at the first line without a match; on an empty list it raises `IndexError` and changes nothing |
| FigureAltCaption.FigureCaptionProcessor.AddFigures | figureAltCaption.py:62-73 | the loop appends, in line order, one fresh and distinct `figure`, each with its own `figcaption`, per line up to the first line without a match; each figure's text is its line verbatim and its only child is a fresh `figcaption` with that line's group 1; the count appended is the index where `run` raises, or the number of lines |
| FigureAltCaption.FigureCaptionProcessor.AppendFigure | figureAltCaption.py:66-73 | appends one fresh `figure` as the last child of the `div`, with the line as its text and as its only child a fresh `figcaption` holding the caption |
| FigureAltCaption.FigureCaptionProcessor.TestThenRun | figureAltCaption.py:46-73 | on a non-empty block list, the parent's tag and text never change; `run` after an accepting `test` returns normally, pops the head block and appends one fresh `div` with no text, holding one fresh and distinct figure per line (the newline count plus one), each with its line as text and its own fresh `figcaption` holding the caption; after a rejecting `test` the parent's children and the list are unchanged |

## Left out

- Registering the processor with Markdown (`extendMarkdown`, `makeExtension`, the position before `ulist`): this is plumbing into the host's processor registry.
- The text of `IMAGE_LINK_RE`, `IMAGE_REFERENCE_RE`, `NOBRACKET` and `BRK`: it belongs to the Markdown library, so the pattern is an abstract function.
- ElementTree beyond `tag`, `text`, `children` and `SubElement`: attributes, `tail` and serialisation to HTML are not used by the processor.
- The later inline pass that turns a figure's text into an `<img>` element: it is host behaviour.
- The unused logger: it is I/O with no effect on the result.
