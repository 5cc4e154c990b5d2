/**
 * ArticleDto: the canonical article record, its storage row (`toArray` /
 * `fromArray`), the validation gate and the summary.
 */
module Articles {
  import opened Wrappers
  import opened Php

  /** One normalised article; `publishedAt` is a timestamp in seconds. */
  datatype Article = Article(
    title: string,
    content: Option<string>,
    description: Option<string>,
    url: string,
    imageUrl: Option<string>,
    sourceName: string,
    sourceId: Option<string>,
    category: Option<string>,
    publishedAt: int)

  /**
   * `Carbon::parse` on a scalar, which the model does not interpret: the
   * timestamp the value denotes, or None where Carbon throws.
   */
  type DateParser = Value -> Option<int>

  /**
   * `Carbon::parse($x ?? now())`: an absent date is the current time; an
   * array is rejected by the typed `$time` parameter with a TypeError; a
   * scalar Carbon cannot read is an Exception.
   */
  function PublishedAt(o: Option<Value>, now: int, parse: DateParser): (r: Result<int, Fault>)
    ensures o.None? ==> r == Ok(now)
    ensures r.Err? <==> o.Some? && (IsArray(o.value) || parse(o.value).None?)
    ensures r == Err(TypeError) <==> o.Some? && IsArray(o.value)
    ensures r == Err(Exception) <==> o.Some? && !IsArray(o.value) && parse(o.value).None?
  {
    match o
    case None => Ok(now)
    case Some(v) =>
      if IsArray(v) then Err(TypeError)
      else
        match parse(v)
        case Some(t) => Ok(t)
        case None => Err(Exception)
  }

  /** A value of a storage row: null, a string, or a Carbon timestamp. */
  datatype Cell = NullCell | TextCell(text: string) | TimeCell(time: int)

  /** An associative array of column name to value. */
  type Row = map<string, Cell>

  /** The nine columns `toArray` writes. */
  const Columns: set<string> := {
    "title", "content", "description", "url", "image_url",
    "source_name", "source_id", "category", "published_at"
  }

  /** The columns that hold strings (all but `published_at`). */
  const TextColumns: set<string> := Columns - {"published_at"}

  /** A `?string` field as a cell. */
  function OptCell(o: Option<string>): Cell {
    match o
    case None => NullCell
    case Some(s) => TextCell(s)
  }

  /** `toArray()`: the row stored for an article. */
  function ToArray(d: Article): (row: Row)
    ensures row.Keys == Columns
    ensures forall k :: k in TextColumns ==> !row[k].TimeCell?
    ensures row["published_at"] == TimeCell(d.publishedAt)
  {
    map[
      "title" := TextCell(d.title),
      "content" := OptCell(d.content),
      "description" := OptCell(d.description),
      "url" := TextCell(d.url),
      "image_url" := OptCell(d.imageUrl),
      "source_name" := TextCell(d.sourceName),
      "source_id" := OptCell(d.sourceId),
      "category" := OptCell(d.category),
      "published_at" := TimeCell(d.publishedAt)
    ]
  }

  /**
   * A Carbon's `__toString`: the text a timestamp is converted to when it
   * reaches a `string` parameter in PHP's coercive typing mode.
   */
  type DateText = int -> string

  /** A cell passed to a `string` parameter: text as it is, a date as its text. */
  function CellText(c: Cell, dateText: DateText): Option<string> {
    match c
    case NullCell => None
    case TextCell(s) => Some(s)
    case TimeCell(t) => Some(dateText(t))
  }

  /** `$data[key] ?? default` passed to a `string` parameter. */
  function TextOrDefault(row: Row, key: string, default: string, dateText: DateText): string {
    if key !in row then default
    else
      match CellText(row[key], dateText)
      case None => default
      case Some(s) => s
  }

  /** `$data[key] ?? null` passed to a `?string` parameter. */
  function NullableText(row: Row, key: string, dateText: DateText): Option<string> {
    if key !in row then None else CellText(row[key], dateText)
  }

  /** `$data['published_at'] ?? now()` passed to a `Carbon` parameter; None is a TypeError. */
  function TimeOrNow(row: Row, now: int): Option<int> {
    if "published_at" !in row then Some(now)
    else
      match row["published_at"]
      case NullCell => Some(now)
      case TimeCell(t) => Some(t)
      case TextCell(_) => None
  }

  /**
   * The constructor accepts the row: every text column coerces to a string,
   * so only text under `published_at`, which no string converts to a Carbon,
   * is a TypeError.
   */
  predicate WellTyped(row: Row) {
    "published_at" in row ==> !row["published_at"].TextCell?
  }

  /** The column is absent or null, so `??` takes the default. */
  predicate Missing(row: Row, key: string) {
    key !in row || row[key] == NullCell
  }

  /** `fromArray($data)`: absent or null columns take their defaults; dates in text columns become their text. */
  function FromArray(row: Row, now: int, dateText: DateText): (r: Option<Article>)
    ensures r.Some? <==> WellTyped(row)
    ensures r.Some? && Missing(row, "title") ==> r.value.title == "No Title"
    ensures r.Some? && "title" in row && row["title"].TextCell? ==> r.value.title == row["title"].text
    ensures r.Some? && "title" in row && row["title"].TimeCell? ==> r.value.title == dateText(row["title"].time)
    ensures r.Some? && Missing(row, "url") ==> r.value.url == ""
    ensures r.Some? && "url" in row && row["url"].TextCell? ==> r.value.url == row["url"].text
    ensures r.Some? && "url" in row && row["url"].TimeCell? ==> r.value.url == dateText(row["url"].time)
    ensures r.Some? && Missing(row, "source_name") ==> r.value.sourceName == ""
    ensures r.Some? && "source_name" in row && row["source_name"].TextCell? ==> r.value.sourceName == row["source_name"].text
    ensures r.Some? && "source_name" in row && row["source_name"].TimeCell? ==> r.value.sourceName == dateText(row["source_name"].time)
    ensures r.Some? && Missing(row, "content") ==> r.value.content == None
    ensures r.Some? && "content" in row && row["content"].TextCell? ==> r.value.content == Some(row["content"].text)
    ensures r.Some? && "content" in row && row["content"].TimeCell? ==> r.value.content == Some(dateText(row["content"].time))
    ensures r.Some? && Missing(row, "description") ==> r.value.description == None
    ensures r.Some? && "description" in row && row["description"].TextCell? ==> r.value.description == Some(row["description"].text)
    ensures r.Some? && "description" in row && row["description"].TimeCell? ==> r.value.description == Some(dateText(row["description"].time))
    ensures r.Some? && Missing(row, "image_url") ==> r.value.imageUrl == None
    ensures r.Some? && "image_url" in row && row["image_url"].TextCell? ==> r.value.imageUrl == Some(row["image_url"].text)
    ensures r.Some? && "image_url" in row && row["image_url"].TimeCell? ==> r.value.imageUrl == Some(dateText(row["image_url"].time))
    ensures r.Some? && Missing(row, "source_id") ==> r.value.sourceId == None
    ensures r.Some? && "source_id" in row && row["source_id"].TextCell? ==> r.value.sourceId == Some(row["source_id"].text)
    ensures r.Some? && "source_id" in row && row["source_id"].TimeCell? ==> r.value.sourceId == Some(dateText(row["source_id"].time))
    ensures r.Some? && Missing(row, "category") ==> r.value.category == None
    ensures r.Some? && "category" in row && row["category"].TextCell? ==> r.value.category == Some(row["category"].text)
    ensures r.Some? && "category" in row && row["category"].TimeCell? ==> r.value.category == Some(dateText(row["category"].time))
    ensures r.Some? && Missing(row, "published_at") ==> r.value.publishedAt == now
    ensures r.Some? && "published_at" in row && row["published_at"].TimeCell? ==> r.value.publishedAt == row["published_at"].time
  {
    var publishedAt := TimeOrNow(row, now);
    if publishedAt.None? then None
    else
      Some(Article(
        TextOrDefault(row, "title", "No Title", dateText),
        NullableText(row, "content", dateText),
        NullableText(row, "description", dateText),
        TextOrDefault(row, "url", "", dateText),
        NullableText(row, "image_url", dateText),
        TextOrDefault(row, "source_name", "", dateText),
        NullableText(row, "source_id", dateText),
        NullableText(row, "category", dateText),
        publishedAt.value))
  }

  /** Decoding a stored row gives back the article that was stored. */
  lemma RoundTrip(d: Article, now: int, dateText: DateText)
    ensures FromArray(ToArray(d), now, dateText) == Some(d)
  {
    var row := ToArray(d);
    assert TextOrDefault(row, "title", "No Title", dateText) == d.title;
    assert TextOrDefault(row, "url", "", dateText) == d.url;
    assert TextOrDefault(row, "source_name", "", dateText) == d.sourceName;
    assert NullableText(row, "content", dateText) == d.content;
    assert NullableText(row, "description", dateText) == d.description;
    assert NullableText(row, "image_url", dateText) == d.imageUrl;
    assert NullableText(row, "source_id", dateText) == d.sourceId;
    assert NullableText(row, "category", dateText) == d.category;
    assert TimeOrNow(row, now) == Some(d.publishedAt);
  }

  /** So two articles with the same row are the same article. */
  lemma ToArrayInjective(d: Article, e: Article)
    requires ToArray(d) == ToArray(e)
    ensures d == e
  {
    RoundTrip(d, 0, t => "");
    RoundTrip(e, 0, t => "");
  }

  /** Missing columns: `'No Title'`, `''` for url and source name, now, and null elsewhere. */
  lemma FromArrayDefaults(row: Row, now: int, dateText: DateText)
    requires row.Keys !! Columns
    ensures FromArray(row, now, dateText) == Some(Article("No Title", None, None, "", None, "", None, None, now))
  {
  }

  /** Only null or absent triggers a default: an empty string is kept. */
  lemma FromArrayKeepsEmptyText(row: Row, now: int, dateText: DateText)
    requires WellTyped(row)
    requires "title" in row && row["title"] == TextCell("")
    requires "url" in row && row["url"] == TextCell("")
    ensures FromArray(row, now, dateText).Some?
    ensures FromArray(row, now, dateText).value.title == ""
    ensures FromArray(row, now, dateText).value.url == ""
  {
  }

  /**
   * `isValid()`: a title and a url that are not PHP-empty, and a url that
   * `filter_var($url, FILTER_VALIDATE_URL)` accepts, here `acceptsUrl`.
   */
  function IsValid(d: Article, acceptsUrl: string -> bool): (ok: bool)
    ensures ok <==> d.title !in {"", "0"} && d.url !in {"", "0"} && acceptsUrl(d.url)
    ensures d.url == "" ==> !ok
  {
    !Falsy(d.title) && !Falsy(d.url) && acceptsUrl(d.url)
  }

  /** The default `$length` of `getSummary`. */
  const DefaultSummaryLength: int := 150

  /** The text a summary is cut from: description, else content, else nothing. */
  function SummaryText(d: Article): string {
    match d.description
    case Some(s) => s
    case None =>
      match d.content
      case Some(c) => c
      case None => ""
  }

  /**
   * `getSummary($length)`: the text itself when it fits in `length` bytes,
   * otherwise `substr($text, 0, $length)` followed by `'...'`.
   */
  function GetSummary(d: Article, length: int): (r: string)
    ensures |SummaryText(d)| <= length ==> r == SummaryText(d)
    ensures 0 <= length < |SummaryText(d)| ==> r == SummaryText(d)[..length] + "..."
    ensures 0 <= length < |SummaryText(d)| ==> |r| == length + 3
    ensures 0 <= length ==> |r| <= length + 3
    ensures length < 0 ==> r == (if |SummaryText(d)| + length > 0 then SummaryText(d)[..|SummaryText(d)| + length] else "") + "..."
  {
    var text := SummaryText(d);
    if |text| > length then Prefix(text, length) + "..." else text
  }

  /** `getSummary()` with its default length: at most 153 characters, and long text keeps its first 150. */
  lemma DefaultSummary(d: Article)
    ensures |GetSummary(d, DefaultSummaryLength)| <= 153
    ensures |SummaryText(d)| <= 150 ==> GetSummary(d, DefaultSummaryLength) == SummaryText(d)
    ensures |SummaryText(d)| > 150 ==>
      GetSummary(d, DefaultSummaryLength) == SummaryText(d)[..150] + "..."
  {
  }
}
