/** GuardianArticleDto: one Guardian `response.results[]` item as an article record. */
module GuardianArticle {
  import opened Wrappers
  import opened Php
  import opened Articles
  import opened CategoryMapping

  const SourceName: string := "The Guardian"

  /** `$article['fields']['headline'] ?? $article['webTitle']`. */
  function Headline(item: Value): Option<Value> {
    OrElse(Path(item, "fields", "headline"), Field(item, "webTitle"))
  }

  predicate TextFieldsScalar(item: Value) {
    && Scalar(Headline(item))
    && Scalar(Path(item, "fields", "body"))
    && Scalar(Path(item, "fields", "trailText"))
    && Scalar(Field(item, "webUrl"))
    && Scalar(Path(item, "fields", "thumbnail"))
    && Scalar(Field(item, "id"))
  }

  /**
   * `fromGuardianResponse($article)`. The section is mapped first (an array
   * there is a TypeError from `mapGuardianSection`), then the date is parsed,
   * then the constructor checks its argument types.
   */
  function FromGuardianResponse(item: Value, now: int, parse: DateParser): (r: Result<Article, Fault>)
    ensures r.Ok? <==>
      && IsArray(item)
      && Scalar(Field(item, "sectionName"))
      && PublishedAt(Field(item, "webPublicationDate"), now, parse).Ok?
      && TextFieldsScalar(item)
    ensures r == Err(Exception) <==>
      IsArray(item) && Scalar(Field(item, "sectionName")) && PublishedAt(Field(item, "webPublicationDate"), now, parse) == Err(Exception)
    ensures r.Ok? ==> r.value.sourceName == SourceName
    ensures r.Ok? ==> r.value.category == MapGuardianSection(OptText(Field(item, "sectionName")).value)
    ensures r.Ok? && r.value.category.Some? ==> IsValidCategory(r.value.category.value)
    ensures r.Ok? ==> r.value.publishedAt == PublishedAt(Field(item, "webPublicationDate"), now, parse).value
    ensures r.Ok? ==> r.value.title == TextOr(Headline(item), "No Title").value
    ensures r.Ok? ==> r.value.content == OptText(Path(item, "fields", "body")).value
    ensures r.Ok? ==> r.value.description == OptText(Path(item, "fields", "trailText")).value
    ensures r.Ok? ==> r.value.url == TextOr(Field(item, "webUrl"), "").value
    ensures r.Ok? ==> r.value.imageUrl == OptText(Path(item, "fields", "thumbnail")).value
    ensures r.Ok? ==> r.value.sourceId == OptText(Field(item, "id")).value
  {
    if !IsArray(item) then Err(TypeError)
    else
      var section :- OptText(Field(item, "sectionName"));
      var category := MapGuardianSection(section);
      var publishedAt :- PublishedAt(Field(item, "webPublicationDate"), now, parse);
      var title :- TextOr(Headline(item), "No Title");
      var content :- OptText(Path(item, "fields", "body"));
      var description :- OptText(Path(item, "fields", "trailText"));
      var url :- TextOr(Field(item, "webUrl"), "");
      var imageUrl :- OptText(Path(item, "fields", "thumbnail"));
      var sourceId :- OptText(Field(item, "id"));
      Ok(Article(title, content, description, url, imageUrl, SourceName, sourceId, category, publishedAt))
  }

  /** The title falls back from `fields.headline` to `webTitle` to `'No Title'`. */
  lemma TitleFallback(item: Value, now: int, parse: DateParser)
    requires FromGuardianResponse(item, now, parse).Ok?
    ensures var title := FromGuardianResponse(item, now, parse).value.title;
      && (Path(item, "fields", "headline") == None && Field(item, "webTitle") == None ==> title == "No Title")
      && (forall s :: Path(item, "fields", "headline") == Some(Str(s)) ==> title == s)
      && (forall s :: Path(item, "fields", "headline") == None && Field(item, "webTitle") == Some(Str(s)) ==> title == s)
  {
  }

  /** Without a section name there is no category. */
  lemma NoSectionNoCategory(item: Value, now: int, parse: DateParser)
    requires FromGuardianResponse(item, now, parse).Ok?
    requires Field(item, "sectionName") == None
    ensures FromGuardianResponse(item, now, parse).value.category == None
  {
  }
}
