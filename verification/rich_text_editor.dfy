/** The rich text editor's toolbar action: the selected text is replaced by a Markdown or HTML
    snippet built from it, and the caret is put after the snippet. JavaScript strings, the
    selection offsets and `length` count UTF-16 code units, so the text is modelled as a
    sequence of code units. */
module RichTextEditor {

  /** One UTF-16 code unit. */
  newtype Unit = x: int | 0 <= x < 0x1_0000

  type Units = seq<Unit>

  /** The UTF-16 encoding of one character: itself below U+10000, a surrogate pair above. */
  function EncodeChar(c: char): (u: Units)
    ensures 1 <= |u| <= 2
    ensures (c as int < 0x1_0000) <==> |u| == 1
  {
    var n := c as int;
    if n < 0x1_0000 then [n as Unit]
    else
      var m := n - 0x1_0000;
      [(0xD800 + m / 0x400) as Unit, (0xDC00 + m % 0x400) as Unit]
  }

  /** The UTF-16 encoding of a string literal of the source. */
  function Utf16(s: string): (u: Units)
    ensures |u| >= |s|
    ensures |s| == 0 <==> |u| == 0
    decreases |s|
  {
    if |s| == 0 then [] else EncodeChar(s[0]) + Utf16(s[1..])
  }

  /** The emoji the 'emoji' button inserts, U+1F60A, which takes two code units. */
  const Smiley: string := "\U{1F60A}"

  lemma SmileyIsSurrogatePair()
    ensures Utf16(Smiley) == [0xD83D, 0xDE0A]
  {
  }

  /** An index clamped into `0..len`, as `substring` does with its arguments. */
  function Clamp(i: int, len: nat): (c: nat)
    ensures c <= len
    ensures 0 <= i <= len ==> c == i
  {
    if i < 0 then 0 else if i > len then len else i
  }

  /** `s.substring(a, b)`: both bounds are clamped and, when the first exceeds the second,
      swapped. */
  function Substring(s: Units, a: int, b: int): (r: Units)
    ensures 0 <= a <= b <= |s| ==> r == s[a..b]
    ensures |r| <= |s|
  {
    var lo, hi := Clamp(a, |s|), Clamp(b, |s|);
    if lo <= hi then s[lo..hi] else s[hi..lo]
  }

  /** The order of the two bounds does not matter to `substring`. */
  lemma SubstringIsSymmetric(s: Units, a: int, b: int)
    ensures Substring(s, a, b) == Substring(s, b, a)
  {
  }

  /** `selectedText || fallback`: the empty selection is replaced by the placeholder. */
  function OrPlaceholder(selected: Units, fallback: string): (r: Units)
    ensures |selected| > 0 ==> r == selected
    ensures |selected| == 0 ==> r == Utf16(fallback)
  {
    if |selected| > 0 then selected else Utf16(fallback)
  }

  /** The three pieces of a snippet: what goes before the selection, the selection (or its
      placeholder) and what goes after. */
  datatype Snippet = Snippet(before: string, body: Units, after: string)

  /** The snippet of each toolbar format; an unknown format gives the selection unchanged. */
  function SnippetFor(format: string, selected: Units): (s: Snippet)
  {
    match format
    case "bold" => Snippet("**", selected, "**")
    case "italic" => Snippet("*", selected, "*")
    case "strikethrough" => Snippet("~~", selected, "~~")
    case "list" => Snippet("\n- ", OrPlaceholder(selected, "List item"), "")
    case "ordered-list" => Snippet("\n1. ", OrPlaceholder(selected, "List item"), "")
    case "link" => Snippet("[", OrPlaceholder(selected, "Link text"), "](URL)")
    case "image" => Snippet("![", OrPlaceholder(selected, "Alt text"), "](Image URL)")
    case "align-left" => Snippet("<div align=\"left\">", OrPlaceholder(selected, "Text"), "</div>")
    case "align-center" => Snippet("<div align=\"center\">", OrPlaceholder(selected, "Text"), "</div>")
    case "align-right" => Snippet("<div align=\"right\">", OrPlaceholder(selected, "Text"), "</div>")
    case "emoji" => Snippet(Smiley, [], "")
    case _ => Snippet("", selected, "")
  }

  /** The text `selectedText || …` falls back to for list, link, image and alignment. */
  function Placeholder(format: string): string
  {
    if format == "list" || format == "ordered-list" then "List item"
    else if format == "link" then "Link text"
    else if format == "image" then "Alt text"
    else "Text"
  }

  /** The formats whose snippet puts a placeholder in place of an empty selection. */
  predicate UsesPlaceholder(format: string)
  {
    || format == "list" || format == "ordered-list" || format == "link" || format == "image"
    || format == "align-left" || format == "align-center" || format == "align-right"
  }

  /** The formats the toolbar knows. */
  predicate Known(format: string)
  {
    format == "bold" || format == "italic" || format == "strikethrough" || format == "emoji"
    || UsesPlaceholder(format)
  }

  /** `formatCode`: bold, italic and strikethrough wrap the selection in two copies of their
      marker; the list, link, image and alignment formats surround the selection, or their
      placeholder when nothing is selected; the emoji is its two code units whatever the
      selection; an unknown format gives back the selection. */
  function FormatCode(format: string, selected: Units): (code: Units)
    ensures format == "bold" ==> code == Utf16("**") + selected + Utf16("**")
    ensures format == "italic" ==> code == Utf16("*") + selected + Utf16("*")
    ensures format == "strikethrough" ==> code == Utf16("~~") + selected + Utf16("~~")
    ensures UsesPlaceholder(format) && |selected| > 0 ==>
      exists a :: OccursAt(code, selected, a)
    ensures UsesPlaceholder(format) && |selected| == 0 ==>
      exists a :: OccursAt(code, Utf16(Placeholder(format)), a)
    ensures format == "emoji" ==> code == [0xD83D, 0xDE0A]
    ensures !Known(format) ==> code == selected
  {
    var s := SnippetFor(format, selected);
    MarkerSnippets(format, selected);
    assert UsesPlaceholder(format) && |selected| == 0 ==> s.body == Utf16(Placeholder(format)) by {
      if UsesPlaceholder(format) {
        PlaceholderFormats(format, selected);
      }
    }
    var code := Utf16(s.before) + s.body + Utf16(s.after);
    assert OccursAt(code, s.body, |Utf16(s.before)|);
    code
  }

  /** The list and ordered-list formats start a new line with their bullet, followed by the
      selection or "List item". */
  lemma ListCodes(selected: Units)
    ensures FormatCode("list", selected) == Utf16("\n- ") + OrPlaceholder(selected, "List item")
    ensures FormatCode("ordered-list", selected) == Utf16("\n1. ") + OrPlaceholder(selected, "List item")
  {
    PlaceholderSnippets("list", selected);
    PlaceholderSnippets("ordered-list", selected);
  }

  /** A link and an image wrap the selection, or "Link text" and "Alt text", in Markdown link
      syntax with the literal targets "URL" and "Image URL". */
  lemma LinkCodes(selected: Units)
    ensures FormatCode("link", selected) == Utf16("[") + OrPlaceholder(selected, "Link text") + Utf16("](URL)")
    ensures FormatCode("image", selected) == Utf16("![") + OrPlaceholder(selected, "Alt text") + Utf16("](Image URL)")
  {
    PlaceholderSnippets("link", selected);
    PlaceholderSnippets("image", selected);
  }

  /** The three alignments wrap the selection, or "Text", in a `div` with their `align`
      attribute. */
  lemma AlignmentCodes(selected: Units)
    ensures FormatCode("align-left", selected)
         == Utf16("<div align=\"left\">") + OrPlaceholder(selected, "Text") + Utf16("</div>")
    ensures FormatCode("align-center", selected)
         == Utf16("<div align=\"center\">") + OrPlaceholder(selected, "Text") + Utf16("</div>")
    ensures FormatCode("align-right", selected)
         == Utf16("<div align=\"right\">") + OrPlaceholder(selected, "Text") + Utf16("</div>")
  {
    PlaceholderSnippets("align-left", selected);
    PlaceholderSnippets("align-center", selected);
    PlaceholderSnippets("align-right", selected);
  }

  /** The snippets of the formats that use a placeholder. */
  lemma PlaceholderSnippets(format: string, selected: Units)
    ensures format == "list" ==> SnippetFor(format, selected) == Snippet("\n- ", OrPlaceholder(selected, "List item"), "")
    ensures format == "ordered-list" ==>
      SnippetFor(format, selected) == Snippet("\n1. ", OrPlaceholder(selected, "List item"), "")
    ensures format == "link" ==> SnippetFor(format, selected) == Snippet("[", OrPlaceholder(selected, "Link text"), "](URL)")
    ensures format == "image" ==>
      SnippetFor(format, selected) == Snippet("![", OrPlaceholder(selected, "Alt text"), "](Image URL)")
    ensures format == "align-left" ==>
      SnippetFor(format, selected) == Snippet("<div align=\"left\">", OrPlaceholder(selected, "Text"), "</div>")
    ensures format == "align-center" ==>
      SnippetFor(format, selected) == Snippet("<div align=\"center\">", OrPlaceholder(selected, "Text"), "</div>")
    ensures format == "align-right" ==>
      SnippetFor(format, selected) == Snippet("<div align=\"right\">", OrPlaceholder(selected, "Text"), "</div>")
  {
  }

  /** The snippets of the formats that do not use a placeholder. */
  lemma MarkerSnippets(format: string, selected: Units)
    ensures format == "bold" ==> SnippetFor(format, selected) == Snippet("**", selected, "**")
    ensures format == "italic" ==> SnippetFor(format, selected) == Snippet("*", selected, "*")
    ensures format == "strikethrough" ==> SnippetFor(format, selected) == Snippet("~~", selected, "~~")
    ensures format == "emoji" ==> Utf16(SnippetFor(format, selected).before) == [0xD83D, 0xDE0A]
    ensures format == "emoji" ==> SnippetFor(format, selected).body == [] && SnippetFor(format, selected).after == ""
    ensures !Known(format) ==> SnippetFor(format, selected) == Snippet("", selected, "")
  {
    SmileyIsSurrogatePair();
  }

  /** `body` occurs in `s` at index `a`. */
  predicate OccursAt(s: Units, body: Units, a: int)
  {
    0 <= a && a + |body| <= |s| && s[a..a + |body|] == body
  }

  /** List, link, image and alignment put their placeholder text in place of an empty
      selection, and keep a non-empty selection as it is. */
  lemma PlaceholderFormats(format: string, selected: Units)
    requires UsesPlaceholder(format)
    ensures |selected| == 0 ==> SnippetFor(format, selected).body == Utf16(Placeholder(format))
    ensures |selected| > 0 ==> SnippetFor(format, selected).body == selected
    ensures |SnippetFor(format, selected).body| > 0
  {
  }

  /** The editor's new text and the caret offset after a toolbar action. */
  datatype Edit = Edit(text: Units, caret: int)

  /** `formatText(format)` with the textarea's selection `start`..`end`: the text before the
      selection, the snippet, and the text after the selection, with the caret after the
      snippet. */
  function FormatText(value: Units, start: int, end: int, format: string): (e: Edit)
    ensures var code := FormatCode(format, Substring(value, start, end));
      e.text == value[..Clamp(start, |value|)] + code + value[Clamp(end, |value|)..]
      && e.caret == start + |code|
  {
    var selected := Substring(value, start, end);
    var code := FormatCode(format, selected);
    Edit(Substring(value, 0, start) + code + Substring(value, end, |value|), start + |code|)
  }

  /** For a selection inside the text, the text before and after it is kept, the selection
      is replaced by the snippet, the length changes by the snippet's length less the
      selection's, and the caret lands right after the snippet. */
  lemma FormatTextSplices(value: Units, start: int, end: int, format: string)
    requires 0 <= start <= end <= |value|
    ensures var code := FormatCode(format, value[start..end]);
      var e := FormatText(value, start, end, format);
      && e.text[..start] == value[..start]
      && e.text[start..start + |code|] == code
      && e.text[start + |code|..] == value[end..]
      && |e.text| == |value| - (end - start) + |code|
      && e.caret == start + |code|
  {
    var code := FormatCode(format, value[start..end]);
    var t := FormatText(value, start, end, format).text;
    assert t == value[..start] + code + value[end..];
    assert t[..start] == value[..start];
    assert t[start..start + |code|] == code;
    assert t[start + |code|..] == value[end..];
  }

  /** An unknown format leaves the text as it was, with the caret at the end of the selection. */
  lemma UnknownFormatKeepsText(value: Units, start: int, end: int, format: string)
    requires 0 <= start <= end <= |value|
    requires !Known(format)
    ensures FormatText(value, start, end, format) == Edit(value, end)
  {
    assert value[..start] + value[start..end] + value[end..] == value;
  }
}
