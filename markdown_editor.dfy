/** The mobile markdown editor's toolbar (mobile-expo/src/components/MarkdownEditor.tsx):
    `insertText` splices an opening and a closing marker around the current selection,
    or around a placeholder when nothing is selected, and puts the cursor just past the
    closing marker. */
module MarkdownEditor {

  /** An index clamped into `[0, n]`, as JavaScript's `substring` treats its arguments. */
  function Clamp(i: int, n: nat): (c: nat)
    ensures c <= n
    ensures 0 <= i <= n ==> c == i
    ensures i < 0 ==> c == 0
    ensures n < i ==> c == n
  {
    if i < 0 then 0 else if i > n then n else i
  }

  /** JavaScript's `s.substring(a, b)`: both indices are clamped into the string and
      swapped when the first is the larger. */
  function Substring(s: string, a: int, b: int): (r: string)
    ensures |r| <= |s|
    ensures 0 <= a <= b <= |s| ==> r == s[a..b]
  {
    var lo := Clamp(a, |s|);
    var hi := Clamp(b, |s|);
    if lo <= hi then s[lo..hi] else s[hi..lo]
  }

  /** The order of `substring`'s arguments does not matter, and an index past the end
      reads as the end. */
  lemma SubstringSymmetric(s: string, a: int, b: int)
    ensures Substring(s, a, b) == Substring(s, b, a)
    ensures 0 <= a <= |s| <= b ==> Substring(s, a, b) == s[a..]
  {
  }

  /** A text value and the cursor position the editor moves to after an edit. */
  datatype Edit = Edit(text: string, cursor: int)

  /** The selection the editor sees lies inside the text, start first. */
  predicate ValidSelection(value: string, start: int, end: int)
  {
    0 <= start <= end <= |value|
  }

  /** What goes between the markers: the selected text, or the placeholder when the
      selection is empty (an empty string is falsy for `||`). */
  function Inserted(value: string, start: int, end: int, placeholder: string): (ins: string)
    ensures ValidSelection(value, start, end) && start < end ==> ins == value[start..end]
    ensures ValidSelection(value, start, end) && start == end ==> ins == placeholder
  {
    var selected := Substring(value, start, end);
    if selected == "" then placeholder else selected
  }

  /** `insertText(before, after, placeholder)` with the selection `[start, end)`. */
  function InsertText(value: string, start: int, end: int, before: string, after: string, placeholder: string): (e: Edit)
    ensures ValidSelection(value, start, end) ==>
              |e.text| == |value| - (end - start) + |before| + |Inserted(value, start, end, placeholder)| + |after|
    ensures ValidSelection(value, start, end) ==>
              start <= |e.text| && e.text[..start] == value[..start]
    ensures ValidSelection(value, start, end) ==>
              |value| - end <= |e.text| && e.text[|e.text| - (|value| - end)..] == value[end..]
  {
    var ins := Inserted(value, start, end, placeholder);
    var text := Substring(value, 0, start) + before + ins + after + Substring(value, end, |value|);
    assert ValidSelection(value, start, end) ==> text == value[..start] + (before + ins + after) + value[end..];
    Edit(text, start + |before| + |ins| + |after|)
  }

  /** The new text is the text before the selection, the opening marker, the selection
      (or the placeholder), the closing marker and the text after the selection. */
  lemma SpliceShape(value: string, start: int, end: int, before: string, after: string, placeholder: string)
    requires ValidSelection(value, start, end)
    ensures InsertText(value, start, end, before, after, placeholder).text ==
              value[..start] + before + (if start == end then placeholder else value[start..end]) + after + value[end..]
  {
  }

  /** The cursor lands just past the closing marker: everything up to it is the text
      before the selection and the wrapped piece, everything from it is the text after
      the selection. */
  lemma CursorAfterClosingMarker(value: string, start: int, end: int, before: string, after: string, placeholder: string)
    requires ValidSelection(value, start, end)
    ensures var e := InsertText(value, start, end, before, after, placeholder);
            var ins := Inserted(value, start, end, placeholder);
            && 0 <= e.cursor <= |e.text|
            && e.cursor == start + |before| + |ins| + |after|
            && e.text[..e.cursor] == value[..start] + before + ins + after
            && e.text[e.cursor..] == value[end..]
  {
    var e := InsertText(value, start, end, before, after, placeholder);
    var ins := Inserted(value, start, end, placeholder);
    var head := value[..start] + before + ins + after;
    assert e.text == head + value[end..];
    assert |head| == e.cursor;
  }

  /** The pieces of a five-part concatenation can be read back by position. */
  lemma Pieces(t: string, a: string, b: string, c: string, d: string, e: string)
    requires t == a + b + c + d + e
    ensures t[..|a|] == a
    ensures t[|a|..|a| + |b| + |c| + |d|] == b + c + d
    ensures t[|a| + |b|..|a| + |b| + |c|] == c
    ensures t[|a| + |b| + |c| + |d|..] == e
  {
    assert t == a + (b + c + d) + e;
    assert t == (a + b) + c + (d + e);
  }

  /** A non-empty selection is kept, not replaced: dropping the markers from the new
      text gives back the old one. */
  lemma UnwrapRestores(value: string, start: int, end: int, before: string, after: string, placeholder: string)
    requires ValidSelection(value, start, end) && start < end
    ensures var e := InsertText(value, start, end, before, after, placeholder);
            && start + |before| + (end - start) + |after| == e.cursor <= |e.text|
            && e.text[start..e.cursor] == before + value[start..end] + after
            && value == e.text[..start] + e.text[start + |before|..start + |before| + (end - start)] + e.text[e.cursor..]
  {
    SpliceShape(value, start, end, before, after, placeholder);
    UnwrapSplice(value, start, end, before, after, InsertText(value, start, end, before, after, placeholder).text);
  }

  lemma UnwrapSplice(value: string, start: int, end: int, before: string, after: string, t: string)
    requires 0 <= start <= end <= |value|
    requires t == value[..start] + before + value[start..end] + after + value[end..]
    ensures start + |before| + (end - start) + |after| <= |t|
    ensures t[start..start + |before| + (end - start) + |after|] == before + value[start..end] + after
    ensures value == t[..start] + t[start + |before|..start + |before| + (end - start)] + t[start + |before| + (end - start) + |after|..]
  {
    SplitAt(value, start, end);
    Pieces(t, value[..start], before, value[start..end], after, value[end..]);
  }

  lemma SplitAt(s: string, i: int, j: int)
    requires 0 <= i <= j <= |s|
    ensures s == s[..i] + s[i..j] + s[j..]
  {
  }

  /** An empty selection receives the placeholder between the markers, with the
      cursor after the closing marker. */
  lemma EmptySelectionInsertsPlaceholder(value: string, at: int, before: string, after: string, placeholder: string)
    requires 0 <= at <= |value|
    ensures var e := InsertText(value, at, at, before, after, placeholder);
            && e.text == value[..at] + before + placeholder + after + value[at..]
            && e.cursor == at + |before| + |placeholder| + |after|
  {
    SpliceShape(value, at, at, before, after, placeholder);
  }

  /** The toolbar's formatting buttons. */
  datatype Format = Bold | Italic | InlineCode | Title | Subtitle | Bullet | Link | Quote

  /** The arguments a button passes to `insertText`. */
  datatype Markers = Markers(before: string, after: string, placeholder: string)

  /** Whether a button wraps the selection on both sides (rather than only prefixing
      its line). */
  predicate Wraps(f: Format)
  {
    f == Bold || f == Italic || f == InlineCode || f == Link
  }

  function MarkersOf(f: Format): (m: Markers)
    ensures m.before != "" && m.placeholder != ""
    ensures Wraps(f) <==> m.after != ""
    ensures f == Bold || f == Italic || f == InlineCode ==> m.after == m.before
    ensures f == Link ==> m.before == "[" && m.after == "](url)"
  {
    match f
    case Bold => Markers("**", "**", "texte en gras")
    case Italic => Markers("*", "*", "texte en italique")
    case InlineCode => Markers("`", "`", "code")
    case Title => Markers("# ", "", "Titre principal")
    case Subtitle => Markers("## ", "", "Sous-titre")
    case Bullet => Markers("- ", "", "Élément de liste")
    case Link => Markers("[", "](url)", "texte du lien")
    case Quote => Markers("> ", "", "Citation")
  }

  /** Pressing a button. */
  function Press(value: string, start: int, end: int, f: Format): (e: Edit)
    ensures var m := MarkersOf(f);
            ValidSelection(value, start, end) ==> |e.text| > |value| - (end - start)
  {
    var m := MarkersOf(f);
    InsertText(value, start, end, m.before, m.after, m.placeholder)
  }

  /** A button that only prefixes writes its marker at the selection's start and leaves
      the cursor right after the selection (or the placeholder). */
  lemma PrefixButtonLeavesCursorAfterSelection(value: string, start: int, end: int, f: Format)
    requires ValidSelection(value, start, end) && !Wraps(f)
    ensures var e := Press(value, start, end, f);
            var m := MarkersOf(f);
            var ins := Inserted(value, start, end, m.placeholder);
            && e.text[start..e.cursor] == m.before + ins
            && e.text[e.cursor..] == value[end..]
  {
    var m := MarkersOf(f);
    var ins := Inserted(value, start, end, m.placeholder);
    SpliceShape(value, start, end, m.before, m.after, m.placeholder);
    Pieces(Press(value, start, end, f).text, value[..start], m.before, ins, m.after, value[end..]);
    assert m.before + ins + m.after == m.before + ins;
  }

  /** A symmetric button on a non-empty selection surrounds exactly the selected text
      with the same marker on both sides. */
  lemma SymmetricButtonSurroundsSelection(value: string, start: int, end: int, f: Format)
    requires ValidSelection(value, start, end) && start < end
    requires f == Bold || f == Italic || f == InlineCode
    ensures var e := Press(value, start, end, f);
            var mark := MarkersOf(f).before;
            e.text[start..e.cursor] == mark + value[start..end] + mark
  {
    var m := MarkersOf(f);
    UnwrapRestores(value, start, end, m.before, m.after, m.placeholder);
  }
}
