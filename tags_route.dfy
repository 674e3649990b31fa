/** The tag handlers (app/routes/tags_route.py). Results are HTTP status
    codes; `title` is `None` when the body has no title. */
module TagsRoute {
  import opened Domain
  import opened Store
  import opened Schemas
  import opened TagsService

  /** `create` (app/routes/tags_route.py:9-36): 400 for a title the schema
      refuses or one some tag already has, otherwise the tag is created (201). */
  method Create(db: Database, title: Option<string>, newId: Uuid) returns (code: nat)
    requires db.Valid()
    requires newId !in db.tags
    modifies db
    ensures db.Valid()
    ensures code == 201 || code == 400
    ensures code == 201 <==> title.Some? && ValidTagTitle(title.value) && !TagExists(old(db.tags), title.value)
    ensures code == 201 ==> db.State() == old(db.State()).(tags := old(db.tags)[newId := Tag(title.value)])
    ensures code == 400 ==> db.State() == old(db.State())
    ensures UniqueTitles(old(db.tags)) ==> UniqueTitles(db.tags)
  {
    if title.None? || !ValidTagTitle(title.value) {
      return 400;
    }
    if TagExists(db.tags, title.value) {
      return 400;
    }
    if UniqueTitles(db.tags) {
      CreateKeepsTitlesUnique(db.tags, newId, title.value);
    }
    CreateTag(db, title.value, newId);
    code := 201;
  }

  /** `update_tag` (app/routes/tags_route.py:52-76): 400 for a refused title,
      500 for an id that is not a UUID, 404 for a missing tag, otherwise the
      tag is renamed (200), whether or not another tag has that title. */
  method UpdateTag(db: Database, tagId: PathId, title: Option<string>) returns (code: nat)
    requires db.Valid()
    modifies db
    ensures db.Valid()
    ensures !(title.Some? && ValidTagTitle(title.value)) ==> code == 400 && db.State() == old(db.State())
    ensures title.Some? && ValidTagTitle(title.value) ==>
      && (tagId.Unparsable? ==> code == 500 && db.State() == old(db.State()))
      && (tagId.Parsed? && tagId.id !in old(db.tags) ==> code == 404 && db.State() == old(db.State()))
      && (tagId.Parsed? && tagId.id in old(db.tags) ==>
            code == 200 && db.State() == old(db.State()).(tags := old(db.tags)[tagId.id := Tag(title.value)]))
  {
    if title.None? || !ValidTagTitle(title.value) {
      return 400;
    }
    var found := GetTagById(db.tags, tagId);
    if found.Raised? {
      return 500;
    }
    if found != Ok(None) {
      var raised := TagsService.UpdateTag(db, tagId, title.value);
      return 200;
    }
    code := 404;
  }

  /** `delete_tag` (app/routes/tags_route.py:78-91): 500 for an id that is not
      a UUID, 404 for a missing tag, otherwise the tag is deleted (200). */
  method DeleteTag(db: Database, tagId: PathId) returns (code: nat)
    requires db.Valid()
    modifies db
    ensures db.Valid()
    ensures tagId.Unparsable? ==> code == 500 && db.State() == old(db.State())
    ensures tagId.Parsed? && tagId.id !in old(db.tags) ==> code == 404 && db.State() == old(db.State())
    ensures tagId.Parsed? && tagId.id in old(db.tags) ==>
      code == 200 && db.State() == WithoutTag(old(db.State()), tagId.id)
  {
    var found := GetTagById(db.tags, tagId);
    if found.Raised? {
      return 500;
    }
    if found == Ok(None) {
      return 404;
    }
    var raised := TagsService.DeleteTag(db, tagId);
    code := 200;
  }

  /** Creating a tag whose title is new keeps titles unique. */
  lemma {:induction false} CreateKeepsTitlesUnique(tags: map<Uuid, Tag>, id: Uuid, title: string)
    requires UniqueTitles(tags) && id !in tags && !TagExists(tags, title)
    ensures UniqueTitles(tags[id := Tag(title)])
  {
    var tags' := tags[id := Tag(title)];
    forall a, b | a in tags' && b in tags' && a != b
      ensures tags'[a].title != tags'[b].title
    {
      if a == id {
        assert tags[b].title != title;
      } else if b == id {
        assert tags[a].title != title;
      }
    }
  }

  /** Renaming has no such check: two distinct tags can end up with one title. */
  lemma UpdateCanDuplicateTitles(a: Uuid, b: Uuid)
    requires a != b
    ensures var tags := map[a := Tag("music"), b := Tag("sports")];
      && UniqueTitles(tags)
      && !UniqueTitles(tags[b := Tag("music")])
  {
    var tags := map[a := Tag("music"), b := Tag("sports")];
    assert tags[a].title != tags[b].title;
    assert tags[b := Tag("music")][a].title == tags[b := Tag("music")][b].title;
  }
}
