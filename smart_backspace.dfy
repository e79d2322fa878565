/** The smart-backspace add-in: when indentation is done with spaces and the
    text before the caret is a whole number of indent units of spaces, a
    backspace deletes one indent unit instead of one character. The add-in
    keeps, per document language, the editor's indent settings it has read. */
module SmartBackspace {
  import opened LineScan
  import opened Editor

  /** The keypress string the handler reacts to is this single character, code 8. */
  const BackspaceChar: CodeUnit := 8

  /** The character an all-whitespace line is made of: the space, code 0x20. */
  const WhitespaceChar: CodeUnit := 0x20

  /** The editor's indent settings for one language. */
  datatype IndentOptions = IndentOptions(insertTabs: bool, indentSize: int)

  /** Settings the handler can act on: the indent size is only divided by when
      tabs are off, and it must then be positive. */
  predicate Usable(options: IndentOptions) {
    options.insertTabs || options.indentSize > 0
  }

  /** What a backspace does: the host's default single-character deletion, or
      the deletion of `count` characters before the caret. */
  datatype Action = KeepDefault | DeleteIndent(count: nat)

  /** The handler's decision on the text before the caret, as the add-in
      computes it (with the scan that skips the first character). */
  function Decide(options: IndentOptions, prefix: Text): (a: Action)
    requires Usable(options)
    ensures a.DeleteIndent? ==> !options.insertTabs && a.count == options.indentSize
    ensures a.DeleteIndent? ==> 0 < a.count <= |prefix|
    ensures a.DeleteIndent? ==> forall k :: 1 <= k < |prefix| ==> prefix[k] == WhitespaceChar
  {
    if options.insertTabs then KeepDefault
    else if |prefix| == 0 then KeepDefault
    else if TailFullOf(prefix, WhitespaceChar) && |prefix| % options.indentSize == 0 then
      DeleteIndent(options.indentSize)
    else KeepDefault
  }

  /** The decision the doc comment of the scan describes: only a prefix made
      entirely of spaces is un-indented. */
  function DecideIntended(options: IndentOptions, prefix: Text): (a: Action)
    requires Usable(options)
    ensures a.DeleteIndent? ==> !options.insertTabs && a.count == options.indentSize && 0 < a.count <= |prefix|
    ensures a.DeleteIndent? ==> forall k :: |prefix| - a.count <= k < |prefix| ==> prefix[k] == WhitespaceChar
  {
    if options.insertTabs then KeepDefault
    else if |prefix| == 0 then KeepDefault
    else if FullOf(prefix, WhitespaceChar) && |prefix| % options.indentSize == 0 then
      DeleteIndent(options.indentSize)
    else KeepDefault
  }

  /** With tabs for indentation, or nothing before the caret, the default backspace runs. */
  lemma TabsOrEmptyKeepDefault(options: IndentOptions, prefix: Text)
    requires Usable(options)
    requires options.insertTabs || prefix == []
    ensures Decide(options, prefix) == KeepDefault
  {
  }

  /** A non-empty prefix of spaces whose length is a multiple of the indent
      size is un-indented by one unit. */
  lemma SpaceRunUnindents(options: IndentOptions, prefix: Text)
    requires !options.insertTabs && options.indentSize > 0
    requires FullOf(prefix, WhitespaceChar) && |prefix| > 0 && |prefix| % options.indentSize == 0
    ensures Decide(options, prefix) == DeleteIndent(options.indentSize)
    ensures DecideIntended(options, prefix) == DeleteIndent(options.indentSize)
  {
  }

  /** A prefix of spaces whose length is not a multiple of the indent size keeps the default. */
  lemma RaggedSpaceRunKeepsDefault(options: IndentOptions, prefix: Text)
    requires Usable(options)
    requires !options.insertTabs ==> |prefix| % options.indentSize != 0
    ensures Decide(options, prefix) == KeepDefault
    ensures DecideIntended(options, prefix) == KeepDefault
  {
  }

  /** A non-space anywhere after the first character keeps the default. */
  lemma NonSpaceKeepsDefault(options: IndentOptions, prefix: Text, i: nat)
    requires Usable(options)
    requires 1 <= i < |prefix| && prefix[i] != WhitespaceChar
    ensures Decide(options, prefix) == KeepDefault
  {
  }

  /** The corrected decision keeps the default for a non-space at any position. */
  lemma NonSpaceKeepsDefaultIntended(options: IndentOptions, prefix: Text, i: nat)
    requires Usable(options)
    requires i < |prefix| && prefix[i] != WhitespaceChar
    ensures DecideIntended(options, prefix) == KeepDefault
  {
  }

  /** The as-written and the intended decision differ exactly on prefixes whose
      first character is not a space, all others are, and whose length is a
      multiple of the indent size. */
  lemma DecideDiffersOnlyAtFirstChar(options: IndentOptions, prefix: Text)
    requires Usable(options)
    ensures Decide(options, prefix) != DecideIntended(options, prefix) <==>
              !options.insertTabs && |prefix| > 0 && prefix[0] != WhitespaceChar &&
              TailFullOf(prefix, WhitespaceChar) && |prefix| % options.indentSize == 0
  {
  }

  /** The deletion the as-written decision performs removes spaces only,
      except that when the indent unit spans the whole prefix it also removes
      the unexamined first character. */
  lemma DeletesOnlySpacesBelowFirst(options: IndentOptions, prefix: Text)
    requires Usable(options)
    requires Decide(options, prefix).DeleteIndent?
    ensures Decide(options, prefix).count < |prefix| ==>
              forall k :: |prefix| - options.indentSize <= k < |prefix| ==> prefix[k] == WhitespaceChar
  {
  }

  /** With indent size 4, the add-in deletes the whole of "x   " (the letter `x`
      and three spaces), letter included. */
  lemma AsWrittenDeletesLeadingNonSpace()
    ensures Decide(IndentOptions(false, 4), [0x78, 0x20, 0x20, 0x20]) == DeleteIndent(4)
    ensures DecideIntended(IndentOptions(false, 4), [0x78, 0x20, 0x20, 0x20]) == KeepDefault
    ensures DeleteRange([0x78, 0x20, 0x20, 0x20], 0, 4) == []
  {
    ScanGapWitness();
  }

  /** Lengths and indices count UTF-16 code units: a character outside the Basic
      Multilingual Plane (here U+1F600, the surrogate pair D83D DE00) followed by
      three spaces is five code units long, and the scan rejects it at the low
      surrogate, index 1. */
  lemma SurrogatePairKeepsDefault(indentSize: int)
    requires indentSize > 0
    ensures Decide(IndentOptions(false, indentSize), [0xD83D, 0xDE00, 0x20, 0x20, 0x20]) == KeepDefault
  {
    NonSpaceKeepsDefault(IndentOptions(false, indentSize), [0xD83D, 0xDE00, 0x20, 0x20, 0x20], 1);
  }

  /** `after` keeps every entry of `before` unchanged. */
  ghost predicate Extends(before: map<Text, IndentOptions>, after: map<Text, IndentOptions>) {
    forall lang :: lang in before ==> lang in after && after[lang] == before[lang]
  }

  /** The add-in object: its per-language settings cache and the keypress handler. */
  class Connect {
    var languageIndentOptions: map<Text, IndentOptions>
    /** The languages whose settings were read from the host, in order. */
    ghost var settingsReads: seq<Text>

    ghost predicate Valid()
      reads this
    {
      (forall lang :: lang in languageIndentOptions ==> Usable(languageIndentOptions[lang])) &&
      (forall lang :: lang in languageIndentOptions <==> lang in settingsReads) &&
      (forall i, j :: 0 <= i < j < |settingsReads| ==> settingsReads[i] != settingsReads[j])
    }

    constructor ()
      ensures Valid()
      ensures languageIndentOptions == map[] && settingsReads == []
    {
      languageIndentOptions := map[];
      settingsReads := [];
    }

    /** Load-on-miss lookup of a language's settings; `hostOptions` is what the
        host's text-editor properties report for `language` when asked. */
    method IndentOptionsFor(language: Text, hostOptions: IndentOptions) returns (options: IndentOptions)
      requires Valid() && Usable(hostOptions)
      modifies this
      ensures Valid()
      ensures language in languageIndentOptions && options == languageIndentOptions[language]
      ensures Extends(old(languageIndentOptions), languageIndentOptions)
      ensures language in old(languageIndentOptions) ==>
                languageIndentOptions == old(languageIndentOptions) && settingsReads == old(settingsReads)
      ensures language !in old(languageIndentOptions) ==>
                options == hostOptions &&
                languageIndentOptions == old(languageIndentOptions)[language := hostOptions] &&
                settingsReads == old(settingsReads) + [language]
    {
      if language !in languageIndentOptions {
        options := hostOptions;
        languageIndentOptions := languageIndentOptions[language := options];
        settingsReads := settingsReads + [language];
      } else {
        options := languageIndentOptions[language];
      }
    }

    /** The handler run before the host processes a keypress in `doc` (null
        when the active document is not a text document). It returns the new
        value of the host's cancel flag, which enters as `cancelKeypress`. */
    method OnBeforeKeyPress(keypress: Text, doc: Document?, hostOptions: IndentOptions, cancelKeypress: bool)
      returns (cancel: bool)
      requires Valid() && Usable(hostOptions)
      requires doc != null ==> doc.Valid()
      modifies this, doc
      ensures Valid()
      ensures doc != null ==> doc.Valid()
      ensures keypress != [BackspaceChar] || doc == null ==>
                cancel == cancelKeypress &&
                languageIndentOptions == old(languageIndentOptions) && settingsReads == old(settingsReads) &&
                (doc != null ==> doc.text == old(doc.text) && doc.cursor == old(doc.cursor))
      ensures keypress == [BackspaceChar] && doc != null ==>
                doc.language in languageIndentOptions &&
                Extends(old(languageIndentOptions), languageIndentOptions)
      ensures keypress == [BackspaceChar] && doc != null && doc.language in old(languageIndentOptions) ==>
                languageIndentOptions == old(languageIndentOptions) && settingsReads == old(settingsReads)
      ensures keypress == [BackspaceChar] && doc != null && doc.language !in old(languageIndentOptions) ==>
                languageIndentOptions == old(languageIndentOptions)[doc.language := hostOptions] &&
                settingsReads == old(settingsReads) + [doc.language]
      ensures keypress == [BackspaceChar] && doc != null ==>
                match Decide(languageIndentOptions[doc.language], old(doc.LinePrefix()))
                case KeepDefault =>
                  cancel == cancelKeypress && doc.text == old(doc.text) && doc.cursor == old(doc.cursor)
                case DeleteIndent(n) =>
                  cancel && n <= old(doc.cursor) &&
                  doc.text == DeleteRange(old(doc.text), old(doc.cursor) - n, n) &&
                  doc.cursor == old(doc.cursor) - n
    {
      cancel := cancelKeypress;
      if keypress != [BackspaceChar] {
        return;
      }
      if doc == null {
        return;
      }
      var options := IndentOptionsFor(doc.language, hostOptions);
      ghost var action := Decide(options, doc.LinePrefix());
      if options.insertTabs {
        return;
      }
      var currentLine := doc.LinePrefix();
      if |currentLine| == 0 {
        return;
      }
      var full := IsLineFullOf(currentLine, WhitespaceChar);
      if full && |currentLine| % options.indentSize == 0 {
        assert action == DeleteIndent(options.indentSize);
        var editPoint := doc.cursor - options.indentSize;
        doc.Delete(editPoint, options.indentSize);
        cancel := true;
      }
    }
  }

  /** A client: on a fresh add-in, with spaces of indent size 4, a Backspace
      after four spaces removes them all and cancels the keypress. */
  method FreshAddInUnindentsFourSpaces() {
    var addIn := new Connect();
    var doc := new Document([0x63], [0x20, 0x20, 0x20, 0x20], 4);
    var host := IndentOptions(false, 4);
    var cancel := addIn.OnBeforeKeyPress([BackspaceChar], doc, host, false);
    assert addIn.languageIndentOptions[doc.language] == host;
    SpaceRunUnindents(host, [0x20, 0x20, 0x20, 0x20]);
    assert cancel && doc.text == [] && doc.cursor == 0;
  }
}
