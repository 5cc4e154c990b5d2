/** NewsApiArticleDto: one NewsAPI `articles[]` item as an article record. */
module NewsApiArticle {
  import opened Wrappers
  import opened Php
  import opened Articles

  const SourceName: string := "NewsAPI"

  /** The item keys whose values end up in `string` or `?string` fields. */
  predicate TextFieldsScalar(item: Value) {
    && Scalar(Field(item, "title"))
    && Scalar(Field(item, "content"))
    && Scalar(Field(item, "description"))
    && Scalar(Field(item, "url"))
    && Scalar(Field(item, "urlToImage"))
    && Scalar(Path(item, "source", "id"))
  }

  /**
   * `fromNewsApiResponse($article)`: a direct field mapping; NewsAPI has no
   * categories. The date is parsed before the constructor checks its
   * argument types, so a bad date wins over a bad field.
   */
  function FromNewsApiResponse(item: Value, now: int, parse: DateParser): (r: Result<Article, Fault>)
    ensures r.Ok? <==> IsArray(item) && PublishedAt(Field(item, "publishedAt"), now, parse).Ok? && TextFieldsScalar(item)
    ensures r == Err(Exception) <==> IsArray(item) && PublishedAt(Field(item, "publishedAt"), now, parse) == Err(Exception)
    ensures r.Ok? ==> r.value.sourceName == SourceName && r.value.category == None
    ensures r.Ok? ==> r.value.publishedAt == PublishedAt(Field(item, "publishedAt"), now, parse).value
    ensures r.Ok? ==> r.value.title == TextOr(Field(item, "title"), "No Title").value
    ensures r.Ok? ==> r.value.url == TextOr(Field(item, "url"), "").value
    ensures r.Ok? ==> r.value.content == OptText(Field(item, "content")).value
    ensures r.Ok? ==> r.value.description == OptText(Field(item, "description")).value
    ensures r.Ok? ==> r.value.imageUrl == OptText(Field(item, "urlToImage")).value
    ensures r.Ok? ==> r.value.sourceId == OptText(Path(item, "source", "id")).value
  {
    if !IsArray(item) then Err(TypeError)
    else
      var publishedAt :- PublishedAt(Field(item, "publishedAt"), now, parse);
      var title :- TextOr(Field(item, "title"), "No Title");
      var content :- OptText(Field(item, "content"));
      var description :- OptText(Field(item, "description"));
      var url :- TextOr(Field(item, "url"), "");
      var imageUrl :- OptText(Field(item, "urlToImage"));
      var sourceId :- OptText(Path(item, "source", "id"));
      Ok(Article(title, content, description, url, imageUrl, SourceName, sourceId, None, publishedAt))
  }

  /** An item without a url becomes a record with url `''`, which never validates. */
  lemma MissingUrlIsInvalid(item: Value, now: int, parse: DateParser, acceptsUrl: string -> bool)
    requires Field(item, "url").None?
    requires FromNewsApiResponse(item, now, parse).Ok?
    ensures FromNewsApiResponse(item, now, parse).value.url == ""
    ensures !IsValid(FromNewsApiResponse(item, now, parse).value, acceptsUrl)
  {
  }

  /** String values are carried over verbatim; absent ones take `'No Title'` and `''`. */
  lemma NewsApiCarriesStrings(item: Value, now: int, parse: DateParser, title: string, url: string)
    requires FromNewsApiResponse(item, now, parse).Ok?
    requires Field(item, "title") == Some(Str(title))
    requires Field(item, "url") == Some(Str(url))
    ensures FromNewsApiResponse(item, now, parse).value.title == title
    ensures FromNewsApiResponse(item, now, parse).value.url == url
  {
  }
}
