/** The line-content scan used by the backspace handler: `IsLineFullOf` as the
    add-in writes it (a backward scan that never looks at index 0), and the
    inclusive scan its doc comment describes. */
module LineScan {

  /** A UTF-16 code unit: what a .NET `char` holds, and what string indexing
      and `Length` count. */
  newtype CodeUnit = c: int | 0 <= c < 0x1_0000

  /** A .NET string: a sequence of UTF-16 code units (a character outside the
      Basic Multilingual Plane takes two, a surrogate pair). */
  type Text = seq<CodeUnit>

  /** Every character after the first one is `ch`: what the backward scan decides. */
  predicate TailFullOf(line: Text, ch: CodeUnit) {
    forall i :: 1 <= i < |line| ==> line[i] == ch
  }

  /** Every character of `line` is `ch`: what the doc comment promises. */
  predicate FullOf(line: Text, ch: CodeUnit) {
    forall i :: 0 <= i < |line| ==> line[i] == ch
  }

  /** The scan as written: from the last character down to index 1, returning
      false on the first character that is not `ch`. */
  method IsLineFullOf(line: Text, ch: CodeUnit) returns (full: bool)
    ensures full <==> TailFullOf(line, ch)
  {
    var i := |line| - 1;
    while i > 0
      invariant -1 <= i < |line|
      invariant forall k :: i < k < |line| ==> line[k] == ch
    {
      if line[i] != ch {
        return false;
      }
      i := i - 1;
    }
    return true;
  }

  /** The corrected scan: the same backward walk, but index 0 is examined too.
      It is the executable counterpart of `FullOf`, the test the corrected
      decision `SmartBackspace.DecideIntended` applies. */
  method IsLineFullOfInclusive(line: Text, ch: CodeUnit) returns (full: bool)
    ensures full <==> FullOf(line, ch)
  {
    var i := |line| - 1;
    while i >= 0
      invariant -1 <= i < |line|
      invariant forall k :: i < k < |line| ==> line[k] == ch
    {
      if line[i] != ch {
        return false;
      }
      i := i - 1;
    }
    return true;
  }

  /** The scan is sound: a line full of `ch` is accepted. */
  lemma FullOfIsTailFullOf(line: Text, ch: CodeUnit)
    requires FullOf(line, ch)
    ensures TailFullOf(line, ch)
  {
  }

  /** Lines of length 0 or 1 are accepted whatever they hold, since index 0 is never read. */
  lemma ShortLineIsTailFullOf(line: Text, ch: CodeUnit)
    requires |line| <= 1
    ensures TailFullOf(line, ch)
  {
  }

  /** The only gap between the scan and the doc comment is the first character:
      the scan accepts a line that is not full of `ch` exactly when the line's
      first character differs from `ch` and all others equal it. */
  lemma ScanGap(line: Text, ch: CodeUnit)
    ensures (TailFullOf(line, ch) && !FullOf(line, ch)) <==> (|line| > 0 && line[0] != ch && TailFullOf(line, ch))
  {
  }

  /** A concrete line the scan misclassifies: the letter `x` followed by three spaces. */
  lemma ScanGapWitness()
    ensures TailFullOf([0x78, 0x20, 0x20, 0x20], 0x20) && !FullOf([0x78, 0x20, 0x20, 0x20], 0x20)
  {
    assert [0x78, 0x20, 0x20, 0x20][0] != 0x20 as CodeUnit;
  }
}
