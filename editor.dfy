/** The part of the host's text document that the backspace handler touches:
    the current line, the caret position in it, and a forward deletion at an
    edit point (the host's `CharLeft` moves the edit point, `Delete` removes
    characters after it). */
module Editor {
  import opened LineScan

  /** `s` with the `count` characters starting at index `at` removed. */
  function DeleteRange(s: Text, at: nat, count: nat): (r: Text)
    requires at + count <= |s|
    ensures |r| == |s| - count
    ensures forall k :: 0 <= k < at ==> r[k] == s[k]
    ensures forall k :: at <= k < |r| ==> r[k] == s[k + count]
  {
    s[..at] + s[at + count..]
  }

  /** Putting the removed characters back at `at` restores the line. */
  lemma DeleteRangeRestore(s: Text, at: nat, count: nat)
    requires at + count <= |s|
    ensures DeleteRange(s, at, count)[..at] + s[at..at + count] + DeleteRange(s, at, count)[at..] == s
  {
  }

  /** The active text document, reduced to its language and its current line. */
  class Document {
    const language: Text
    var text: Text
    var cursor: nat

    ghost predicate Valid()
      reads this
    {
      cursor <= |text|
    }

    constructor (language: Text, text: Text, cursor: nat)
      requires cursor <= |text|
      ensures Valid()
      ensures this.language == language && this.text == text && this.cursor == cursor
    {
      this.language := language;
      this.text := text;
      this.cursor := cursor;
    }

    /** The text from the start of the line up to the caret. */
    function LinePrefix(): (p: Text)
      reads this
      requires Valid()
      ensures |p| == cursor
      ensures forall k :: 0 <= k < cursor ==> p[k] == text[k]
    {
      text[..cursor]
    }

    /** Deletes `count` characters forward from the edit point `at`; a caret
        after the deleted range shifts left with the text, a caret inside it
        ends at `at`. */
    method Delete(at: nat, count: nat)
      requires Valid()
      requires at + count <= |text|
      modifies this
      ensures Valid()
      ensures text == DeleteRange(old(text), at, count)
      ensures cursor == if old(cursor) <= at then old(cursor)
                        else if old(cursor) <= at + count then at
                        else old(cursor) - count
    {
      text := DeleteRange(text, at, count);
      if cursor > at + count {
        cursor := cursor - count;
      } else if cursor > at {
        cursor := at;
      }
    }
  }
}
