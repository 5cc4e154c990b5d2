/**
 * The `articles` table as the pipeline uses it: look up by url, insert a
 * new record, and bulk-delete by publication time. The table's url column
 * is unique, which `Valid` states.
 */
module ArticleStore {
  import opened Wrappers
  import opened Articles

  predicate HasUrl(rows: seq<Article>, url: string) {
    exists i :: 0 <= i < |rows| && rows[i].url == url
  }

  /** The unique index on `url`. */
  predicate UniqueUrls(rows: seq<Article>) {
    forall i, j :: 0 <= i < j < |rows| ==> rows[i].url != rows[j].url
  }

  /** A url stays present when records are added after it. */
  lemma HasUrlExtend(rows: seq<Article>, more: seq<Article>, url: string)
    requires HasUrl(rows, url)
    ensures HasUrl(rows + more, url)
  {
    var i :| 0 <= i < |rows| && rows[i].url == url;
    assert (rows + more)[i] == rows[i];
  }

  /** Adding a record whose url is new keeps the index unique. */
  lemma UniqueAppend(rows: seq<Article>, d: Article)
    requires UniqueUrls(rows)
    requires !HasUrl(rows, d.url)
    ensures UniqueUrls(rows + [d])
    ensures HasUrl(rows + [d], d.url)
  {
    var r := rows + [d];
    assert r[|rows|] == d;
    forall i, j | 0 <= i < j < |r| ensures r[i].url != r[j].url {
      assert r[i] == rows[i];
      if j < |rows| {
        assert r[j] == rows[j];
      }
    }
  }

  /** `where('url', $url)->first()`: the first stored record with that url. */
  function FirstWithUrl(rows: seq<Article>, url: string): (r: Option<Article>)
    ensures r.Some? <==> HasUrl(rows, url)
    ensures r.Some? ==> r.value in rows && r.value.url == url
  {
    if rows == [] then None
    else if rows[0].url == url then Some(rows[0])
    else
      var r := FirstWithUrl(rows[1..], url);
      assert forall i :: 1 <= i < |rows| ==> rows[i] == rows[1..][i - 1];
      assert HasUrl(rows[1..], url) ==> HasUrl(rows, url) by {
        if HasUrl(rows[1..], url) {
          var i :| 0 <= i < |rows[1..]| && rows[1..][i].url == url;
          assert rows[i + 1].url == url;
        }
      }
      r
  }

  /** The records `where('published_at', '<', $cutoff)->delete()` leaves, in order. */
  function Retained(rows: seq<Article>, cutoff: int): (r: seq<Article>)
    ensures |r| <= |rows|
    ensures forall d :: d in r <==> d in rows && d.publishedAt >= cutoff
  {
    if rows == [] then []
    else if rows[0].publishedAt < cutoff then Retained(rows[1..], cutoff)
    else [rows[0]] + Retained(rows[1..], cutoff)
  }

  /** How many records are older than the cutoff. */
  function CountOlder(rows: seq<Article>, cutoff: int): nat {
    if rows == [] then 0
    else (if rows[0].publishedAt < cutoff then 1 else 0) + CountOlder(rows[1..], cutoff)
  }

  /** The records removed are exactly the ones older than the cutoff. */
  lemma {:induction false} RetainedCount(rows: seq<Article>, cutoff: int)
    ensures |Retained(rows, cutoff)| + CountOlder(rows, cutoff) == |rows|
  {
    if rows != [] {
      RetainedCount(rows[1..], cutoff);
    }
  }

  /** A second delete with the same cutoff removes nothing. */
  lemma {:induction false} RetainedIdempotent(rows: seq<Article>, cutoff: int)
    ensures Retained(Retained(rows, cutoff), cutoff) == Retained(rows, cutoff)
  {
    if rows != [] {
      RetainedIdempotent(rows[1..], cutoff);
      if rows[0].publishedAt >= cutoff {
        var rest := Retained(rows[1..], cutoff);
        assert ([rows[0]] + rest)[0] == rows[0] && ([rows[0]] + rest)[1..] == rest;
      }
    }
  }

  /** Records kept keep their relative order, so deleting cannot break the unique index. */
  lemma {:induction false} RetainedUnique(rows: seq<Article>, cutoff: int)
    requires UniqueUrls(rows)
    ensures UniqueUrls(Retained(rows, cutoff))
  {
    if rows != [] {
      assert UniqueUrls(rows[1..]) by {
        forall i, j | 0 <= i < j < |rows[1..]| ensures rows[1..][i].url != rows[1..][j].url {
          assert rows[1..][i] == rows[i + 1] && rows[1..][j] == rows[j + 1];
        }
      }
      RetainedUnique(rows[1..], cutoff);
      var rest := Retained(rows[1..], cutoff);
      if rows[0].publishedAt >= cutoff {
        forall j | 0 <= j < |rest| ensures rows[0].url != rest[j].url {
          assert rest[j] in rows[1..];
          var k :| 0 <= k < |rows[1..]| && rows[1..][k] == rest[j];
          assert rows[k + 1] == rest[j];
        }
        var r := [rows[0]] + rest;
        forall i, j | 0 <= i < j < |r| ensures r[i].url != r[j].url {
          if i == 0 {
            assert r[j] == rest[j - 1];
          } else {
            assert r[i] == rest[i - 1] && r[j] == rest[j - 1];
          }
        }
      }
    }
  }

  /** All-old records followed by all-recent ones: exactly the old ones go. */
  lemma {:induction false} RetainedSplit(older: seq<Article>, recent: seq<Article>, cutoff: int)
    requires forall i :: 0 <= i < |older| ==> older[i].publishedAt < cutoff
    requires forall i :: 0 <= i < |recent| ==> recent[i].publishedAt >= cutoff
    ensures Retained(older + recent, cutoff) == recent
    ensures CountOlder(older + recent, cutoff) == |older|
  {
    if older == [] {
      assert older + recent == recent;
      RetainedAllRecent(recent, cutoff);
      RetainedCount(recent, cutoff);
    } else {
      assert (older + recent)[0] == older[0] && (older + recent)[1..] == older[1..] + recent;
      RetainedSplit(older[1..], recent, cutoff);
    }
  }

  lemma {:induction false} RetainedAllRecent(rows: seq<Article>, cutoff: int)
    requires forall i :: 0 <= i < |rows| ==> rows[i].publishedAt >= cutoff
    ensures Retained(rows, cutoff) == rows
  {
    if rows != [] {
      RetainedAllRecent(rows[1..], cutoff);
    }
  }

  /** The `$fillable` list of the `Article` model as written: `url_to_image`, not `image_url`. */
  const FillableAsWritten: set<string> := {
    "title", "content", "description", "url", "url_to_image", "source_name",
    "source_id", "author", "category", "country", "language", "published_at"
  }

  /** The fillable list the `articles` table's columns call for: the nine columns `toArray` writes. */
  const FillableIntended: set<string> := Columns

  /** Eloquent mass assignment: `create` keeps the fillable keys of the row and silently drops the rest. */
  function MassAssign(row: Row, fillable: set<string>): (r: Row)
    ensures r.Keys == row.Keys * fillable
    ensures forall k :: k in r ==> r[k] == row[k]
  {
    map k | k in row.Keys && k in fillable :: row[k]
  }

  /**
   * As written, `Article::create($dto->toArray())` drops the image url: the
   * stored row reads back as the record without its image.
   */
  lemma ImageUrlDiscarded(d: Article, now: int, dateText: DateText)
    ensures "image_url" !in MassAssign(ToArray(d), FillableAsWritten)
    ensures FromArray(MassAssign(ToArray(d), FillableAsWritten), now, dateText) == Some(d.(imageUrl := None))
    ensures d.imageUrl.Some? ==> FromArray(MassAssign(ToArray(d), FillableAsWritten), now, dateText) != Some(d)
  {
    var row := MassAssign(ToArray(d), FillableAsWritten);
    assert "image_url" !in FillableAsWritten;
    assert TextOrDefault(row, "title", "No Title", dateText) == d.title;
    assert TextOrDefault(row, "url", "", dateText) == d.url;
    assert TextOrDefault(row, "source_name", "", dateText) == d.sourceName;
    assert NullableText(row, "content", dateText) == d.content;
    assert NullableText(row, "description", dateText) == d.description;
    assert NullableText(row, "image_url", dateText) == None;
    assert NullableText(row, "source_id", dateText) == d.sourceId;
    assert NullableText(row, "category", dateText) == d.category;
    assert TimeOrNow(row, now) == Some(d.publishedAt);
  }

  /**
   * With `image_url` fillable, `create` keeps the whole row, which reads back
   * as the record itself; this is why the store below holds records.
   */
  lemma CreateKeepsRow(d: Article, now: int, dateText: DateText)
    ensures MassAssign(ToArray(d), FillableIntended) == ToArray(d)
    ensures FromArray(MassAssign(ToArray(d), FillableIntended), now, dateText) == Some(d)
  {
    assert MassAssign(ToArray(d), FillableIntended).Keys == ToArray(d).Keys;
    RoundTrip(d, now, dateText);
  }

  class Store {
    var rows: seq<Article>

    /** An empty table. */
    constructor()
      ensures rows == []
    {
      rows := [];
    }

    predicate Valid()
      reads this
    {
      UniqueUrls(rows)
    }

    /** `Article::where('url', $url)->first()`. */
    function FindByUrl(url: string): (r: Option<Article>)
      reads this
      ensures r.Some? <==> HasUrl(rows, url)
      ensures r.Some? ==> r.value in rows && r.value.url == url
    {
      FirstWithUrl(rows, url)
    }

    /** `Article::create($dto->toArray())` for a url the table does not hold yet. */
    method Insert(d: Article)
      requires Valid()
      requires !HasUrl(rows, d.url)
      modifies this
      ensures rows == old(rows) + [d]
      ensures Valid()
    {
      UniqueAppend(rows, d);
      rows := rows + [d];
    }

    /** `Article::where('published_at', '<', $cutoff)->delete()`: the number of records removed. */
    method DeleteOlderThan(cutoff: int) returns (deleted: nat)
      requires Valid()
      modifies this
      ensures rows == Retained(old(rows), cutoff)
      ensures deleted == CountOlder(old(rows), cutoff)
      ensures Valid()
    {
      RetainedCount(rows, cutoff);
      RetainedUnique(rows, cutoff);
      deleted := CountOlder(rows, cutoff);
      rows := Retained(rows, cutoff);
    }
  }
}
