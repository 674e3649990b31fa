/** `TagsService` (app/services/tags_service.py): create, look up, list,
    rename and delete tags. */
module TagsService {
  import opened Domain
  import opened Store

  /** `tag_exists` (app/services/tags_service.py:16-20): some tag has exactly
      this title. */
  predicate TagExists(tags: map<Uuid, Tag>, title: string)
  {
    exists id :: id in tags && tags[id].title == title
  }

  /** A title exists exactly when the tag listing holds a pair with it. */
  lemma {:induction false} TagExistsIffListed(tags: map<Uuid, Tag>, title: string)
    ensures TagExists(tags, title) <==> exists p :: p in AllTags(tags) && p.1 == title
  {
    if TagExists(tags, title) {
      var id :| id in tags && tags[id].title == title;
      assert (id, title) in AllTags(tags);
    }
  }

  /** No two tags share a title. Nothing in the store enforces it; the create
      handler's check is the only thing that keeps it. */
  predicate UniqueTitles(tags: map<Uuid, Tag>)
  {
    forall a, b :: a in tags && b in tags && a != b ==> tags[a].title != tags[b].title
  }

  /** Adding a tag to the tag table keeps the store consistent. */
  lemma {:induction false} AddTagKeepsConsistent(t: Tables, id: Uuid, g: Tag)
    requires Consistent(t)
    ensures Consistent(t.(tags := t.tags[id := g]))
  {
    var t' := t.(tags := t.tags[id := g]);
    forall w | w in t'.videos
      ensures VideoRowConsistent(t', t'.videos[w])
    {
      assert VideoRowConsistent(t, t.videos[w]);
    }
  }

  /** `create_tag` (app/services/tags_service.py:7-14): one row added under a
      fresh id. */
  method CreateTag(db: Database, title: string, newId: Uuid)
    requires db.Valid()
    requires newId !in db.tags
    modifies db
    ensures db.Valid()
    ensures db.State() == old(db.State()).(tags := old(db.tags)[newId := Tag(title)])
    ensures TagExists(db.tags, title)
  {
    AddTagKeepsConsistent(db.State(), newId, Tag(title));
    db.tags := db.tags[newId := Tag(title)];
    assert db.tags[newId].title == title;
  }

  /** `get_all` (app/services/tags_service.py:23-29): every tag as an
      (id, title) pair; the query has no ordering. */
  function AllTags(tags: map<Uuid, Tag>): (r: set<(Uuid, string)>)
    ensures forall id, title :: (id, title) in r <==> id in tags && tags[id].title == title
    ensures |r| == |tags|
  {
    var r := set id | id in tags :: (id, tags[id].title);
    assert r == set id | id in tags.Keys :: (id, tags[id].title);
    PairsCount(tags);
    r
  }

  /** The (id, title) pairs of a tag table are as many as its rows. */
  lemma {:induction false} PairsCount(tags: map<Uuid, Tag>)
    ensures |set id | id in tags.Keys :: (id, tags[id].title)| == |tags|
    decreases |tags|
  {
    if tags != map[] {
      var k :| k in tags;
      var rest := tags - {k};
      PairsCount(rest);
      var s := set id | id in tags.Keys :: (id, tags[id].title);
      var s' := set id | id in rest.Keys :: (id, rest[id].title);
      forall p | p in s
        ensures p in s' + {(k, tags[k].title)}
      {
        var id :| id in tags.Keys && p == (id, tags[id].title);
        if id != k {
          assert id in rest.Keys && rest[id] == tags[id];
        }
      }
      forall p | p in s'
        ensures p in s
      {
        var id :| id in rest.Keys && p == (id, rest[id].title);
        assert id in tags.Keys;
      }
      assert s == s' + {(k, tags[k].title)};
      assert (k, tags[k].title) !in s';
    }
  }

  /** `get_tag_by_id` (app/services/tags_service.py:32-36): the tag, or `None`;
      text that is not a UUID makes the query raise. */
  function GetTagById(tags: map<Uuid, Tag>, tagId: PathId): (r: Outcome<Option<Tag>>)
    ensures r.Raised? <==> tagId.Unparsable?
    ensures r.Ok? ==> (r.value.Some? <==> tagId.id in tags)
    ensures r.Ok? && r.value.Some? ==> r.value.value == tags[tagId.id]
    ensures !r.ValueErr?
  {
    if tagId.Unparsable? then Raised
    else if tagId.id in tags then Ok(Some(tags[tagId.id]))
    else Ok(None)
  }

  /** `update_tag` (app/services/tags_service.py:40-47): renames an existing
      tag; a missing tag is left alone. No title check is made. `raised` is
      whether the query raises. */
  method UpdateTag(db: Database, tagId: PathId, title: string) returns (raised: bool)
    requires db.Valid()
    modifies db
    ensures db.Valid()
    ensures raised <==> tagId.Unparsable?
    ensures tagId.Parsed? && tagId.id in old(db.tags) ==>
      db.State() == old(db.State()).(tags := old(db.tags)[tagId.id := Tag(title)])
    ensures !(tagId.Parsed? && tagId.id in old(db.tags)) ==> db.State() == old(db.State())
  {
    if tagId.Unparsable? {
      return true;
    }
    raised := false;
    if tagId.id in db.tags {
      AddTagKeepsConsistent(db.State(), tagId.id, Tag(title));
      db.tags := db.tags[tagId.id := Tag(title)];
    }
  }

  /** The tables after a tag row is deleted: its association rows go with
      it, so no video keeps the tag. */
  function WithoutTag(t: Tables, id: Uuid): (r: Tables)
    ensures r.users == t.users && r.comments == t.comments
    ensures r.tags == t.tags - {id}
    ensures r.videos.Keys == t.videos.Keys
    ensures forall v :: v in r.videos ==> r.videos[v] == t.videos[v].(tags := t.videos[v].tags - {id})
  {
    t.(tags := t.tags - {id},
       videos := map v | v in t.videos :: t.videos[v].(tags := t.videos[v].tags - {id}))
  }

  /** Deleting a tag keeps the store consistent. */
  lemma {:induction false} DeleteTagKeepsConsistent(t: Tables, id: Uuid)
    requires Consistent(t)
    ensures Consistent(WithoutTag(t, id))
  {
    var r := WithoutTag(t, id);
    forall w | w in r.videos
      ensures VideoRowConsistent(r, r.videos[w])
    {
      assert VideoRowConsistent(t, t.videos[w]);
    }
  }

  /** `delete_tag` (app/services/tags_service.py:50-55): deletes an existing
      tag; a missing tag is left alone. */
  method DeleteTag(db: Database, tagId: PathId) returns (raised: bool)
    requires db.Valid()
    modifies db
    ensures db.Valid()
    ensures raised <==> tagId.Unparsable?
    ensures tagId.Parsed? && tagId.id in old(db.tags) ==> db.State() == WithoutTag(old(db.State()), tagId.id)
    ensures !(tagId.Parsed? && tagId.id in old(db.tags)) ==> db.State() == old(db.State())
  {
    if tagId.Unparsable? {
      return true;
    }
    raised := false;
    if tagId.id in db.tags {
      DeleteTagKeepsConsistent(db.State(), tagId.id);
      var t := WithoutTag(db.State(), tagId.id);
      db.tags, db.videos := t.tags, t.videos;
    }
  }
}
