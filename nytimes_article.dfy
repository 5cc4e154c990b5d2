/** NYTimesArticleDto: one NYT `response.docs[]` item as an article record. */
module NYTimesArticle {
  import opened Wrappers
  import opened Php
  import opened Articles
  import opened CategoryMapping

  const SourceName: string := "New York Times"

  /** Multimedia urls are relative to the site root. */
  const MediaBase: string := "https://www.nytimes.com/"

  /** A link under the site root. */
  predicate UnderMediaBase(link: string) {
    |link| >= |MediaBase| && link[..|MediaBase|] == MediaBase
  }

  /** A multimedia entry the image search accepts: an array of type `image` with a non-empty url. */
  predicate IsImageEntry(m: Value) {
    IsArray(m) && Field(m, "type") == Some(Str("image")) && !Empty(Field(m, "url"))
  }

  /** `'https://www.nytimes.com/' . $media['url']` for an accepted entry. */
  function ImageLink(m: Value): (r: Result<Option<string>, Fault>)
    requires IsImageEntry(m)
    ensures r.Ok? <==> !IsArray(Field(m, "url").value)
    ensures r.Ok? ==> r.value.Some? && UnderMediaBase(r.value.value)
    ensures Field(m, "url").value.Str? ==> r == Ok(Some(MediaBase + Field(m, "url").value.s))
    ensures r.Err? ==> r.error == Exception
  {
    var tail :- Interpolate(Field(m, "url").value);
    Ok(Some(MediaBase + tail))
  }

  /** The link of the first accepted entry, scanning `media` in order. */
  function FirstImage(media: seq<Value>): (r: Result<Option<string>, Fault>)
    ensures r == Ok(None) <==> forall i :: 0 <= i < |media| ==> !IsImageEntry(media[i])
    ensures r.Ok? ==> r.value.None? || UnderMediaBase(r.value.value)
    ensures r.Err? ==> r.error == Exception
  {
    if media == [] then Ok(None)
    else if IsImageEntry(media[0]) then ImageLink(media[0])
    else
      var r := FirstImage(media[1..]);
      assert forall i :: 1 <= i < |media| ==> media[i] == media[1..][i - 1];
      r
  }

  /** The image search as a whole: nothing unless `multimedia` is a non-empty array. */
  function ImageUrl(multimedia: Option<Value>): (r: Result<Option<string>, Fault>)
    ensures Empty(multimedia) || !IsArray(multimedia.value) ==> r == Ok(None)
    ensures r.Ok? && r.value.Some? ==> UnderMediaBase(r.value.value)
    ensures r.Err? ==> r.error == Exception
  {
    if Empty(multimedia) || !IsArray(multimedia.value) then Ok(None)
    else FirstImage(Elements(multimedia.value))
  }

  /** The `foreach` over `multimedia` that stops at the first accepted entry. */
  method FindImage(multimedia: Option<Value>) returns (r: Result<Option<string>, Fault>)
    ensures r == ImageUrl(multimedia)
  {
    r := Ok(None);
    if Empty(multimedia) || !IsArray(multimedia.value) {
      return;
    }
    var media := Elements(multimedia.value);
    var i := 0;
    while i < |media|
      invariant 0 <= i <= |media|
      invariant FirstImage(media) == FirstImage(media[i..])
      decreases |media| - i
    {
      if IsImageEntry(media[i]) {
        r := ImageLink(media[i]);
        break;
      }
      assert media[i..][1..] == media[i + 1..];
      i := i + 1;
    }
  }

  /** The result is the link of the first accepted entry. */
  lemma {:induction false} FirstImageIsFirstEntry(media: seq<Value>, k: nat)
    requires k < |media| && IsImageEntry(media[k])
    requires forall i :: 0 <= i < k ==> !IsImageEntry(media[i])
    ensures FirstImage(media) == ImageLink(media[k])
  {
    if k > 0 {
      assert !IsImageEntry(media[0]);
      assert media[1..][k - 1] == media[k];
      forall i | 0 <= i < k - 1 ensures !IsImageEntry(media[1..][i]) {
        assert media[1..][i] == media[i + 1];
      }
      FirstImageIsFirstEntry(media[1..], k - 1);
    }
  }

  /** Entries after the first accepted one are never looked at. */
  lemma {:induction false} FirstImageIgnoresRest(media: seq<Value>, k: nat)
    requires k < |media| && IsImageEntry(media[k])
    ensures FirstImage(media) == FirstImage(media[..k + 1])
  {
    var prefix := media[..k + 1];
    assert prefix[0] == media[0];
    if IsImageEntry(media[0]) {
      FirstImageAtHead(media);
      FirstImageAtHead(prefix);
    } else {
      assert media[1..][k - 1] == media[k];
      FirstImageIgnoresRest(media[1..], k - 1);
      assert prefix[1..] == media[1..][..k];
      FirstImageSkipsHead(media);
      FirstImageSkipsHead(prefix);
    }
  }

  lemma FirstImageAtHead(media: seq<Value>)
    requires |media| > 0 && IsImageEntry(media[0])
    ensures FirstImage(media) == ImageLink(media[0])
  {
  }

  lemma FirstImageSkipsHead(media: seq<Value>)
    requires |media| > 0 && !IsImageEntry(media[0])
    ensures FirstImage(media) == FirstImage(media[1..])
  {
  }

  predicate TextFieldsScalar(item: Value) {
    && Scalar(Path(item, "headline", "main"))
    && Scalar(OrElse(Field(item, "lead_paragraph"), Field(item, "snippet")))
    && Scalar(OrElse(Field(item, "abstract"), Field(item, "snippet")))
    && Scalar(Field(item, "web_url"))
    && Scalar(Field(item, "_id"))
  }

  /**
   * `fromNYTimesResponse($article)`: the section is mapped first, then the
   * image search runs, then the date is parsed, then the constructor checks
   * its argument types.
   */
  function FromNYTimesResponse(item: Value, now: int, parse: DateParser): (r: Result<Article, Fault>)
    ensures r.Ok? <==>
      && IsArray(item)
      && Scalar(Field(item, "section_name"))
      && ImageUrl(Field(item, "multimedia")).Ok?
      && PublishedAt(Field(item, "pub_date"), now, parse).Ok?
      && TextFieldsScalar(item)
    ensures r == Err(Exception) <==>
      && IsArray(item)
      && Scalar(Field(item, "section_name"))
      && (ImageUrl(Field(item, "multimedia")).Err? || PublishedAt(Field(item, "pub_date"), now, parse) == Err(Exception))
    ensures r.Ok? ==> r.value.sourceName == SourceName
    ensures r.Ok? ==> r.value.category == MapNytSection(OptText(Field(item, "section_name")).value)
    ensures r.Ok? && r.value.category.Some? ==> IsValidCategory(r.value.category.value)
    ensures r.Ok? ==> r.value.imageUrl == ImageUrl(Field(item, "multimedia")).value
    ensures r.Ok? && r.value.imageUrl.Some? ==> UnderMediaBase(r.value.imageUrl.value)
    ensures r.Ok? ==> r.value.publishedAt == PublishedAt(Field(item, "pub_date"), now, parse).value
    ensures r.Ok? ==> r.value.title == TextOr(Path(item, "headline", "main"), "No Title").value
    ensures r.Ok? ==> r.value.content == OptText(OrElse(Field(item, "lead_paragraph"), Field(item, "snippet"))).value
    ensures r.Ok? ==> r.value.description == OptText(OrElse(Field(item, "abstract"), Field(item, "snippet"))).value
    ensures r.Ok? ==> r.value.url == TextOr(Field(item, "web_url"), "").value
    ensures r.Ok? ==> r.value.sourceId == OptText(Field(item, "_id")).value
  {
    if !IsArray(item) then Err(TypeError)
    else
      var section :- OptText(Field(item, "section_name"));
      var category := MapNytSection(section);
      var imageUrl :- ImageUrl(Field(item, "multimedia"));
      var publishedAt :- PublishedAt(Field(item, "pub_date"), now, parse);
      var title :- TextOr(Path(item, "headline", "main"), "No Title");
      var content :- OptText(OrElse(Field(item, "lead_paragraph"), Field(item, "snippet")));
      var description :- OptText(OrElse(Field(item, "abstract"), Field(item, "snippet")));
      var url :- TextOr(Field(item, "web_url"), "");
      var sourceId :- OptText(Field(item, "_id"));
      Ok(Article(title, content, description, url, imageUrl, SourceName, sourceId, category, publishedAt))
  }

  /** Without a lead paragraph or an abstract, the snippet stands in for both. */
  lemma SnippetFallback(item: Value, now: int, parse: DateParser, snippet: string)
    requires FromNYTimesResponse(item, now, parse).Ok?
    requires Field(item, "lead_paragraph") == None && Field(item, "abstract") == None
    requires Field(item, "snippet") == Some(Str(snippet))
    ensures FromNYTimesResponse(item, now, parse).value.content == Some(snippet)
    ensures FromNYTimesResponse(item, now, parse).value.description == Some(snippet)
  {
  }

  /** A first image entry with url `u` yields the absolute link `https://www.nytimes.com/u`. */
  lemma ImageLinkOfFirstEntry(m: Value, rest: seq<Value>, u: string)
    requires IsImageEntry(m) && Field(m, "url") == Some(Str(u))
    ensures FirstImage([m] + rest) == Ok(Some(MediaBase + u))
  {
    assert ([m] + rest)[0] == m;
  }
}
