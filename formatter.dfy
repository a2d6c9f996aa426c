/**
 * The response formatting shared by both search handlers: the `texto` of a
 * document is cut into a title and a content at the first ": ", and each of
 * at most five ranked documents becomes one search result, in order.
 */
module Formatter {
  import opened Wrappers
  import opened JsStrings
  import opened Store

  /** The separator between title and content inside `texto`. */
  const DELIMITER: string := ": "

  datatype TitledText = TitledText(title: string, content: string)

  /** The split before trimming: the title is the first piece of `texto`
      split at ": "; the content is the other pieces joined again with ": ",
      or, when that is the empty string, the whole of `texto`. */
  function RawSplit(texto: string): TitledText {
    var parts := Split(texto, DELIMITER);
    TitledText(parts[0], OrElse(Join(parts[1..], DELIMITER), texto))
  }

  /** The title and content a search result shows: both parts trimmed. */
  function SplitTitle(texto: string): TitledText {
    var raw := RawSplit(texto);
    TitledText(Trim(raw.title), Trim(raw.content))
  }

  /** With a delimiter at `i`, the raw title is the text before it and the raw
      content everything after it (later delimiters included), unless that is
      empty, in which case the content falls back to the whole text. */
  lemma RawSplitAtFirst(texto: string, i: nat)
    requires FindFirst(texto, DELIMITER) == Some(i)
    ensures RawSplit(texto).title == texto[..i]
    ensures RawSplit(texto).content == if i + 2 < |texto| then texto[i + 2..] else texto
  {
    JoinTailAfterFirst(texto, DELIMITER, i);
  }

  /** Without a delimiter, the raw title and raw content are both the whole text. */
  lemma RawSplitWithoutDelimiter(texto: string)
    requires !Contains(texto, DELIMITER)
    ensures RawSplit(texto) == TitledText(texto, texto)
  {
    assert Split(texto, DELIMITER) == [texto];
  }

  /** The raw title never contains the delimiter: only the first one splits. */
  lemma RawTitleHasNoDelimiter(texto: string)
    ensures !Contains(RawSplit(texto).title, DELIMITER)
  {
  }

  /** With a delimiter at `i` and text after it, the title is the trimmed
      text before the first delimiter and the content the trimmed rest, later
      delimiters kept. */
  lemma TitleAndContentAtFirstDelimiter(texto: string, i: nat)
    requires FindFirst(texto, DELIMITER) == Some(i)
    requires i + 2 < |texto|
    ensures SplitTitle(texto) == TitledText(Trim(texto[..i]), Trim(texto[i + 2..]))
  {
    RawSplitAtFirst(texto, i);
  }

  /** When nothing follows the first delimiter (as in "A: "), the title is the
      trimmed text before it and the content the trimmed whole text. */
  lemma EmptyRemainderFallsBack(texto: string, i: nat)
    requires FindFirst(texto, DELIMITER) == Some(i)
    requires i + 2 == |texto|
    ensures SplitTitle(texto) == TitledText(Trim(texto[..i]), Trim(texto))
  {
    RawSplitAtFirst(texto, i);
  }

  /** Without a delimiter, the text is its own title and its own content. */
  lemma NoDelimiterFallsBack(texto: string)
    requires !Contains(texto, DELIMITER)
    ensures SplitTitle(texto) == TitledText(Trim(texto), Trim(texto))
  {
    RawSplitWithoutDelimiter(texto);
  }

  /** Before trimming, title + ": " + content gives back the text exactly
      when the text has a delimiter with something after its first one. */
  lemma RawSplitReconstructs(texto: string)
    ensures Rejoin(RawSplit(texto)) == texto
            <==> FindFirst(texto, DELIMITER).Some? && FindFirst(texto, DELIMITER).value + 2 < |texto|
  {
    match FindFirst(texto, DELIMITER)
    case None =>
      RawSplitWithoutDelimiter(texto);
    case Some(i) =>
      if i + 2 < |texto| {
        RejoinAtFirst(texto, i);
      } else {
        RawSplitAtFirst(texto, i);
      }
  }

  lemma RejoinAtFirst(texto: string, i: nat)
    requires FindFirst(texto, DELIMITER) == Some(i) && i + 2 < |texto|
    ensures Rejoin(RawSplit(texto)) == texto
  {
    RawSplitAtFirst(texto, i);
    assert texto[i..i + 2] == DELIMITER;
    SliceThree(texto, i, i + 2);
  }

  lemma SliceThree(s: string, i: nat, j: nat)
    requires i <= j <= |s|
    ensures s == s[..i] + s[i..j] + s[j..]
  {
  }

  /** `title + ': ' + content`. */
  function Rejoin(parts: TitledText): string {
    parts.title + DELIMITER + parts.content
  }

  /** A text starting with one character other than ':' and then ": " has
      its first delimiter at index 1. */
  lemma DelimiterAfterFirstChar(t: string)
    requires |t| >= 3 && t[0] != ':' && t[1] == ':' && t[2] == ' '
    ensures FindFirst(t, DELIMITER) == Some(1)
  {
    assert !OccursAt(t, DELIMITER, 0) by {
      assert t[0..2][0] != DELIMITER[0];
    }
    assert t[1..3] == DELIMITER;
    FirstOccurrence(t, DELIMITER, 1);
  }

  /** "A: ": nothing follows the delimiter, so the content falls back to
      the whole text, trimmed. */
  lemma ExampleEmptyRemainder(a: char)
    requires !IsWhitespace(a) && a != ':'
    ensures SplitTitle([a, ':', ' ']) == TitledText([a], [a, ':'])
  {
    var t := [a, ':', ' '];
    DelimiterAfterFirstChar(t);
    EmptyRemainderFallsBack(t, 1);
    assert t[..1] == [a];
    TrimmedIsFixed([a]);
    TrimBetween(t, 0, 2);
  }

  /** ": x": the title is empty and the content is what follows. */
  lemma ExampleEmptyTitle(x: char)
    requires !IsWhitespace(x)
    ensures SplitTitle([':', ' ', x]) == TitledText("", [x])
  {
    var t := [':', ' ', x];
    FirstOccurrence(t, DELIMITER, 0);
    TitleAndContentAtFirstDelimiter(t, 0);
    assert t[2..] == [x];
    TrimmedIsFixed([x]);
  }

  /** "": the empty text is its own title and content. */
  lemma ExampleEmptyText()
    ensures SplitTitle("") == TitledText("", "")
  {
    NoDelimiterFallsBack("");
  }

  /** "a: b: c": only the first delimiter splits; the content keeps the second. */
  lemma ExampleLaterDelimiterKept(a: char, b: char, c: char)
    requires !IsWhitespace(a) && a != ':' && !IsWhitespace(b) && !IsWhitespace(c)
    ensures SplitTitle([a, ':', ' ', b, ':', ' ', c]) == TitledText([a], [b, ':', ' ', c])
  {
    var t := [a, ':', ' ', b, ':', ' ', c];
    DelimiterAfterFirstChar(t);
    TitleAndContentAtFirstDelimiter(t, 1);
    assert t[..1] == [a];
    assert t[3..] == [b, ':', ' ', c];
    TrimmedIsFixed([a]);
    TrimmedIsFixed([b, ':', ' ', c]);
  }

  /** Where a search result takes its `createdAt` from. */
  datatype DateField = DataHora | CreatedAt

  function CreationTime(item: Document, field: DateField): Option<int> {
    match field
    case DataHora => item.dataHora
    case CreatedAt => item.createdAt
  }

  /** One entry of the `results` array of a search response. */
  datatype SearchResult = SearchResult(
    id: nat,
    title: string,
    content: string,
    estado: Option<string>,
    imageUrl: Option<string>,
    createdAt: Option<int>)

  /** The `map` callback of both search handlers. */
  function Format(item: Document, field: DateField): SearchResult {
    var parts := SplitTitle(item.texto);
    SearchResult(item.id, parts.title, parts.content, item.estado, item.imagemUrl,
                 CreationTime(item, field))
  }

  /** The `map` over the documents: one result per document, in order. */
  function FormatAll(items: seq<Document>, field: DateField): (rs: seq<SearchResult>)
    ensures |rs| == |items|
    ensures forall i :: 0 <= i < |items| ==> rs[i] == Format(items[i], field)
  {
    seq(|items|, i requires 0 <= i < |items| => Format(items[i], field))
  }

  /** The `results` of a successful search over the ranked documents. */
  function FormatResults(ranked: seq<Document>, field: DateField): seq<SearchResult> {
    FormatAll(Limit(ranked, RESULT_LIMIT), field)
  }

  /** A search answers at most five results, the i-th from the i-th ranked
      document: id, estado and imagemUrl copied, createdAt from the given
      field, title and content cut from texto. */
  lemma FormatResultsFaithful(ranked: seq<Document>, field: DateField)
    ensures var rs := FormatResults(ranked, field);
      && |rs| <= RESULT_LIMIT
      && |rs| == (if |ranked| < RESULT_LIMIT then |ranked| else RESULT_LIMIT)
      && forall i :: 0 <= i < |rs| ==>
           && rs[i].id == ranked[i].id
           && TitledText(rs[i].title, rs[i].content) == SplitTitle(ranked[i].texto)
           && rs[i].estado == ranked[i].estado
           && rs[i].imageUrl == ranked[i].imagemUrl
           && rs[i].createdAt == CreationTime(ranked[i], field)
  {
  }
}
