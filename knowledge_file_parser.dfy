/**
 * The knowledge-base upload helpers (frontend/src/lib/knowledge-file-parser.ts):
 * the extension of a file name, the set of extensions that can be turned into
 * text, the XML entity decoder of slide text, and the dispatch from an
 * extension to the extractor that reads the file.
 *
 * The extractors that rest on libraries (PDF, DOCX, spreadsheets, slides, the
 * legacy binary scan) are a parameter: what each would return for the file.
 */
module KnowledgeFileParser {
  import opened Wrappers
  import opened Text
  import opened Collections

  // ---------------------------------------------------------------------------
  // Extensions
  // ---------------------------------------------------------------------------

  /** `TEXT_EXTENSIONS`: read as UTF-8 text. */
  const TextExtensions: set<string> := {"txt", "md", "json", "csv", "tsv"}

  /** `EXTRACTABLE_EXTENSIONS`. */
  const ExtractableExtensions: set<string> :=
    {"txt", "md", "json", "csv", "tsv", "pdf", "doc", "docx", "xls", "xlsx", "ppt", "pptx"}

  /** `getFileExtension`: the last piece of the lower-cased name split on `.`, or `""` with no dot. */
  function FileExtension(fileName: string): string {
    var parts := Split(Lower(fileName), '.');
    if |parts| > 1 then parts[|parts| - 1] else ""
  }

  /** `isSupportedKnowledgeExtension`. */
  predicate IsSupportedKnowledgeExtension(extension: string) {
    extension in ExtractableExtensions
  }

  /** Every extension read as text is an extractable one. */
  lemma TextExtensionsSupported()
    ensures forall e :: e in TextExtensions ==> IsSupportedKnowledgeExtension(e)
  {
  }

  /** The last piece of a split after a separator is what follows the last separator. */
  lemma {:induction false} SplitLastPiece(a: string, c: char, b: string)
    requires c !in b
    ensures |Split(a + [c] + b, c)| >= 2
    ensures Split(a + [c] + b, c)[|Split(a + [c] + b, c)| - 1] == b
  {
    if a == [] {
      SplitAtSeparator(a, c, b);
      SplitNoSeparator(b, c);
    } else {
      var s := a + [c] + b;
      assert s[1..] == a[1..] + [c] + b;
      SplitLastPiece(a[1..], c, b);
    }
  }

  /** Lower-casing keeps the dots where they are. */
  lemma LowerAroundDot(stem: string, ext: string)
    ensures Lower(stem + "." + ext) == Lower(stem) + "." + Lower(ext)
    ensures '.' !in ext ==> '.' !in Lower(ext)
  {
    var s := stem + "." + ext;
    assert forall i :: 0 <= i < |s| ==> s[i] == if i < |stem| then stem[i] else if i == |stem| then '.' else ext[i - |stem| - 1];
  }

  /** A name without a dot has no extension. */
  lemma {:induction false} NoDotNoExtension(fileName: string)
    requires '.' !in fileName
    ensures FileExtension(fileName) == ""
  {
    assert forall i :: 0 <= i < |fileName| ==> Lower(fileName)[i] == LowerChar(fileName[i]);
    assert '.' !in Lower(fileName);
    SplitNoSeparator(Lower(fileName), '.');
  }

  /** The extension is the lower-cased text after the last dot (empty when the name ends in a dot). */
  lemma {:induction false} ExtensionAfterLastDot(stem: string, ext: string)
    requires '.' !in ext
    ensures FileExtension(stem + "." + ext) == Lower(ext)
    ensures '.' !in FileExtension(stem + "." + ext)
  {
    LowerAroundDot(stem, ext);
    SplitLastPiece(Lower(stem), '.', Lower(ext));
  }

  // ---------------------------------------------------------------------------
  // Entities
  // ---------------------------------------------------------------------------

  /**
   * `decodeHtmlEntities` as written: five global replacements in turn, the
   * first of which is `&amp;` to `&`.
   */
  function DecodeHtmlEntitiesAsWritten(value: string): string {
    var a := ReplaceAll(value, "&amp;", "&");
    var b := ReplaceAll(a, "&lt;", "<");
    var c := ReplaceAll(b, "&gt;", ">");
    var d := ReplaceAll(c, "&quot;", "\"");
    ReplaceAll(d, "&apos;", "'")
  }

  /** Text without an ampersand passes the as-written decoder unchanged. */
  lemma NoAmpersandUnchanged(value: string)
    requires '&' !in value
    ensures DecodeHtmlEntitiesAsWritten(value) == value
  {
    ReplaceAllAbsent(value, "&amp;", "&");
    ReplaceAllAbsent(value, "&lt;", "<");
    ReplaceAllAbsent(value, "&gt;", ">");
    ReplaceAllAbsent(value, "&quot;", "\"");
    ReplaceAllAbsent(value, "&apos;", "'");
  }

  /** How XML escapes one character of text. */
  function EscapeChar(c: char): string {
    if c == '&' then "&amp;"
    else if c == '<' then "&lt;"
    else if c == '>' then "&gt;"
    else if c == '"' then "&quot;"
    else if c == '\'' then "&apos;"
    else [c]
  }

  /** The escaped form in which slide text is stored. */
  function Escape(s: string): string {
    if s == [] then [] else EscapeChar(s[0]) + Escape(s[1..])
  }

  /** The as-written decoder turns the stored form of the text `&lt;` into `<`. */
  lemma DoubleUnescape()
    ensures Escape("&lt;") == "&amp;lt;"
    ensures DecodeHtmlEntitiesAsWritten("&amp;lt;") == "<"
  {
    var a := ReplaceAll("&amp;lt;", "&amp;", "&");
    assert "&amp;lt;"[..5] == "&amp;";
    assert "&amp;lt;"[5..] == "lt;";
    ReplaceAllAbsent("lt;", "&amp;", "&");
    assert a == "&lt;";
    var b := ReplaceAll(a, "&lt;", "<");
    assert a[..4] == "&lt;" && a[4..] == [];
    assert b == "<";
    ReplaceAllAbsent(b, "&gt;", ">");
    ReplaceAllAbsent(b, "&quot;", "\"");
    ReplaceAllAbsent(b, "&apos;", "'");
  }

  /** The entity at the start of `s` and its length, if there is one. */
  function EntityAt(s: string): Option<(char, nat)> {
    if StartsWith(s, "&amp;") then Some(('&', 5))
    else if StartsWith(s, "&lt;") then Some(('<', 4))
    else if StartsWith(s, "&gt;") then Some(('>', 4))
    else if StartsWith(s, "&quot;") then Some(('"', 6))
    else if StartsWith(s, "&apos;") then Some(('\'', 6))
    else None
  }

  /** The five entities decoded in one left-to-right pass, so that a decoded `&` is never read again. */
  function DecodeHtmlEntities(value: string): string
    decreases |value|
  {
    if value == [] then []
    else
      match EntityAt(value)
      case Some((c, n)) => if n <= |value| then [c] + DecodeHtmlEntities(value[n..]) else value
      case None => [value[0]] + DecodeHtmlEntities(value[1..])
  }

  /** Every entity starts with an ampersand. */
  lemma NoEntityWithoutAmpersand(s: string)
    requires s != [] && s[0] != '&'
    ensures EntityAt(s) == None
  {
    forall p: string | p != [] && p[0] == '&' && |p| <= |s|
      ensures s[..|p|] != p
    {
      assert s[..|p|][0] == s[0];
    }
    assert "&amp;"[0] == '&' && "&lt;"[0] == '&' && "&gt;"[0] == '&';
    assert "&quot;"[0] == '&' && "&apos;"[0] == '&';
  }

  /** Decoding one escaped character and then the rest. */
  lemma DecodeEscapedChar(c: char, rest: string)
    ensures DecodeHtmlEntities(EscapeChar(c) + rest) == [c] + DecodeHtmlEntities(rest)
  {
    var e := EscapeChar(c);
    var s := e + rest;
    assert s[..|e|] == e && s[|e|..] == rest;
    if c == '&' {
      assert EntityAt(s) == Some(('&', 5));
    } else if c == '<' {
      assert !StartsWith(s, "&amp;") by { assert s[1] == 'l'; }
      assert EntityAt(s) == Some(('<', 4));
    } else if c == '>' {
      assert !StartsWith(s, "&amp;") && !StartsWith(s, "&lt;") by { assert s[1] == 'g'; }
      assert EntityAt(s) == Some(('>', 4));
    } else if c == '"' {
      assert !StartsWith(s, "&amp;") && !StartsWith(s, "&lt;") && !StartsWith(s, "&gt;") by { assert s[1] == 'q'; }
      assert EntityAt(s) == Some(('"', 6));
    } else if c == '\'' {
      assert !StartsWith(s, "&amp;") by { assert s[1..3] == "ap" && s[3] == 'o'; }
      assert !StartsWith(s, "&lt;") && !StartsWith(s, "&gt;") && !StartsWith(s, "&quot;") by { assert s[1] == 'a'; }
      assert EntityAt(s) == Some(('\'', 6));
    } else {
      assert s[0] == c && s[1..] == rest;
      NoEntityWithoutAmpersand(s);
    }
  }

  /** The one-pass decoder inverts the escaping, for every text. */
  lemma {:induction false} DecodeEscape(s: string)
    ensures DecodeHtmlEntities(Escape(s)) == s
  {
    if s != [] {
      DecodeEscape(s[1..]);
      DecodeEscapedChar(s[0], Escape(s[1..]));
      assert s == [s[0]] + s[1..];
    }
  }

  /** The one-pass decoder keeps the text `&lt;` that the as-written one turns into `<`. */
  lemma SingleUnescape()
    ensures DecodeHtmlEntities(Escape("&lt;")) == "&lt;"
  {
    DecodeEscape("&lt;");
  }

  /** Text without an ampersand also passes the one-pass decoder unchanged. */
  lemma {:induction false} DecodeNoAmpersand(value: string)
    requires '&' !in value
    ensures DecodeHtmlEntities(value) == value
  {
    if value != [] {
      NoEntityWithoutAmpersand(value);
      DecodeNoAmpersand(value[1..]);
      assert value == [value[0]] + value[1..];
    }
  }

  /** One `<a:t>` fragment, decoded with the corrected one-pass decoder and trimmed. */
  function SlideLine(fragment: string): string {
    Strip(DecodeHtmlEntities(fragment))
  }

  predicate NonEmptyLine(line: string) {
    line != ""
  }

  /**
   * The text of one slide in `extractPptxText`: every `<a:t>` fragment
   * decoded (with the corrected decoder) and trimmed, the empty ones
   * dropped, the rest joined by lines.
   */
  function SlideText(fragments: seq<string>): string {
    Join(Filter(MapSeq(fragments, SlideLine), NonEmptyLine), "\n")
  }

  /** A fragment that is blank once decoded and trimmed leaves no line, wherever it stands. */
  lemma SlideTextSkipsBlank(before: seq<string>, fragment: string, after: seq<string>)
    requires SlideLine(fragment) == ""
    ensures SlideText(before + [fragment] + after) == SlideText(before + after)
  {
    MapFilterSkips(before, fragment, after, SlideLine, NonEmptyLine);
  }

  /**
   * Fragments already free of entities and of outer spaces, none empty, are
   * the slide's lines, in their order.
   */
  lemma SlideTextPlain(fragments: seq<string>)
    requires forall i :: 0 <= i < |fragments| ==>
      '&' !in fragments[i] && fragments[i] != "" && !IsSpace(fragments[i][0]) && !IsSpace(fragments[i][|fragments[i]| - 1])
    ensures SlideText(fragments) == Join(fragments, "\n")
  {
    forall i | 0 <= i < |fragments|
      ensures SlideLine(fragments[i]) == fragments[i]
    {
      DecodeNoAmpersand(fragments[i]);
      StripNoSpace(fragments[i]);
    }
    assert MapSeq(fragments, SlideLine) == fragments;
    FilterAll(fragments, NonEmptyLine);
  }

  // ---------------------------------------------------------------------------
  // Dispatch
  // ---------------------------------------------------------------------------

  /** `FileParserError(message, status = 400)`. */
  datatype FileParserError = FileParserError(message: string, status: nat)

  function ParserError(message: string): FileParserError {
    FileParserError(message, 400)
  }

  const UnsupportedMessage: string := "Formato no soportado. Usa TXT, CSV, PDF, DOCX, XLSX o PPTX."

  /** The extractors that read a file through a library. */
  datatype Extractor = PdfText | DocxText | SpreadsheetText | PptxText | LegacyText

  datatype Extracted = Extracted(content: string, fileType: string)

  /**
   * `extractTextFromKnowledgeFile`.  `utf8` is the file decoded as UTF-8 and
   * `extract(x)` what extractor `x` gives for the file, or the error it throws.
   */
  function ExtractText(fileName: string, utf8: string, extract: Extractor -> Result<string, FileParserError>): Result<Extracted, FileParserError> {
    var extension := FileExtension(fileName);
    if !IsSupportedKnowledgeExtension(extension) then Err(ParserError(UnsupportedMessage))
    else if extension in TextExtensions then Ok(Extracted(utf8, extension))
    else if extension == "pdf" then Library(extract(PdfText), "pdf")
    else if extension == "docx" then Library(extract(DocxText), "docx")
    else if extension == "xls" || extension == "xlsx" then Library(extract(SpreadsheetText), "excel")
    else if extension == "pptx" then Library(extract(PptxText), "pptx")
    else if extension == "doc" || extension == "ppt" then
      match extract(LegacyText)
      case Err(e) => Err(e)
      case Ok(content) =>
        if IsBlank(content) then
          Err(ParserError("No se pudo extraer texto de ." + extension + ". Convierte el archivo a .docx o .pptx."))
        else Ok(Extracted(content, extension))
    else Err(ParserError("Formato no soportado."))
  }

  function Library(r: Result<string, FileParserError>, fileType: string): Result<Extracted, FileParserError> {
    match r
    case Ok(content) => Ok(Extracted(content, fileType))
    case Err(e) => Err(e)
  }

  /** The file type reported for each supported extension. */
  function FileTypeOf(extension: string): string {
    if extension == "xls" || extension == "xlsx" then "excel" else extension
  }

  /** An unsupported extension is refused with a 400 whatever the file holds: it is never read. */
  lemma UnsupportedBeforeRead(fileName: string, utf8: string, utf8': string,
                              extract: Extractor -> Result<string, FileParserError>,
                              extract': Extractor -> Result<string, FileParserError>)
    requires !IsSupportedKnowledgeExtension(FileExtension(fileName))
    ensures ExtractText(fileName, utf8, extract) == ExtractText(fileName, utf8', extract')
    ensures ExtractText(fileName, utf8, extract) == Err(FileParserError(UnsupportedMessage, 400))
  {
  }

  /** Text files come back verbatim, typed by their extension. */
  lemma TextFilesVerbatim(fileName: string, utf8: string, extract: Extractor -> Result<string, FileParserError>)
    requires FileExtension(fileName) in TextExtensions
    ensures ExtractText(fileName, utf8, extract) == Ok(Extracted(utf8, FileExtension(fileName)))
  {
  }

  /**
   * Every supported extension reaches its extractor: a success is typed by
   * `FileTypeOf`, and the final "Formato no soportado." is never thrown.
   */
  lemma DispatchComplete(fileName: string, utf8: string, extract: Extractor -> Result<string, FileParserError>)
    ensures var r := ExtractText(fileName, utf8, extract);
      (r.Ok? ==> IsSupportedKnowledgeExtension(FileExtension(fileName)) &&
                 r.value.fileType == FileTypeOf(FileExtension(fileName))) &&
      (r != Err(ParserError("Formato no soportado.")) || exists x :: extract(x) == Err(ParserError("Formato no soportado.")))
  {
    var extension := FileExtension(fileName);
    if IsSupportedKnowledgeExtension(extension) {
      assert extension in ExtractableExtensions;
    } else {
      assert UnsupportedMessage != "Formato no soportado.";
    }
  }
}
