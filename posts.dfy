/**
 * The inventory built by `get_all_posts`: every item any endpoint returned that
 * is a dict with an `id` becomes a record, and the records are collected in a
 * dict keyed by id, a later sighting of an id replacing the earlier record.
 *
 * The endpoints are queried in a fixed order and each lists its items in
 * order; the model takes the resulting sequence of sightings (the endpoint
 * label and the decoded item) as its input. The current time is read once,
 * before the first request, and is the parameter `now`.
 */
module Posts {
  import opened Wrappers
  import opened Json
  import opened OrderedDict
  import opened PostStatus

  /** The `post_info` dict built for one item. */
  datatype PostInfo = PostInfo(
    id: Json,
    endpoint: string,
    title: Json,
    isPublished: Json,
    postDate: Json,
    draftUpdatedAt: Json,
    updatedAt: Json,
    postSchedules: Json,
    status: Status,
    scheduleDate: Option<Json>)

  /** One item as some endpoint returned it, with the label recorded as `endpoint`. */
  datatype Sighting = Sighting(endpoint: string, item: Json)

  type Inventory = Dict<Json, PostInfo>

  /** The record of an item with an `id`: its fields copied with `.get`, then classified. */
  function MakePostInfo(item: map<string, Json>, endpoint: string, iso: string -> Option<DateTime>, now: int): (info: PostInfo)
    requires "id" in item
    ensures info.id == item["id"] && info.endpoint == endpoint
    ensures info.title == Title(item) && info.isPublished == Field(item, "is_published")
    ensures info.postDate == Field(item, "post_date") && info.draftUpdatedAt == Field(item, "draft_updated_at")
    ensures info.updatedAt == Field(item, "updated_at") && info.postSchedules == Schedules(item)
    ensures info.status == Classify(item, iso, now).status && info.scheduleDate == Classify(item, iso, now).scheduleDate
  {
    var verdict := Classify(item, iso, now);
    PostInfo(item["id"], endpoint, Title(item), Field(item, "is_published"), Field(item, "post_date"),
             Field(item, "draft_updated_at"), Field(item, "updated_at"), Schedules(item),
             verdict.status, verdict.scheduleDate)
  }

  /** `isinstance(item, dict) and 'id' in item`. */
  predicate HasId(s: Sighting) {
    s.item.Obj? && "id" in s.item.fields
  }

  /** What a sighting assigns in the inventory, if anything: its id and its record. */
  function Recorded(s: Sighting, iso: string -> Option<DateTime>, now: int): (r: Option<(Json, PostInfo)>)
    ensures r.Some? <==> HasId(s)
    ensures r.Some? ==> r.value.0 == s.item.fields["id"] && r.value.1.id == r.value.0
  {
    if HasId(s) then
      var info := MakePostInfo(s.item.fields, s.endpoint, iso, now);
      Some((info.id, info))
    else None
  }

  function Assignments(sightings: seq<Sighting>, iso: string -> Option<DateTime>, now: int): (es: seq<Option<(Json, PostInfo)>>)
    ensures |es| == |sightings| && forall i :: 0 <= i < |sightings| ==> es[i] == Recorded(sightings[i], iso, now)
  {
    seq(|sightings|, i requires 0 <= i < |sightings| => Recorded(sightings[i], iso, now))
  }

  /** The inventory of a sequence of sightings: `all_found_posts[post_id] = post_info` for each item with an id, in order. */
  function InventoryOf(sightings: seq<Sighting>, iso: string -> Option<DateTime>, now: int): (posts: Inventory)
    ensures DistinctKeys(posts)
  {
    PutAllDistinct([], Assignments(sightings, iso, now));
    PutAll([], Assignments(sightings, iso, now))
  }

  /** The collecting loop of `get_all_posts`. */
  method GetAllPosts(sightings: seq<Sighting>, iso: string -> Option<DateTime>, now: int) returns (posts: Inventory)
    ensures posts == InventoryOf(sightings, iso, now)
  {
    posts := [];
    for i := 0 to |sightings|
      invariant posts == PutAll([], Assignments(sightings, iso, now)[..i])
    {
      assert Assignments(sightings, iso, now)[..i + 1][..i] == Assignments(sightings, iso, now)[..i];
      var s := sightings[i];
      if s.item.Obj? && "id" in s.item.fields {
        var postId := s.item.fields["id"];
        var postInfo := MakePostInfo(s.item.fields, s.endpoint, iso, now);
        posts := Put(posts, postId, postInfo);
      }
    }
    assert Assignments(sightings, iso, now)[..|sightings|] == Assignments(sightings, iso, now);
  }

  /** An id is in the inventory iff some sighting is a dict with that id. */
  lemma {:induction false} InventoryKeys(sightings: seq<Sighting>, iso: string -> Option<DateTime>, now: int, id: Json)
    ensures Get(InventoryOf(sightings, iso, now), id).Some? <==>
            exists i :: 0 <= i < |sightings| && HasId(sightings[i]) && sightings[i].item.fields["id"] == id
  {
    var es := Assignments(sightings, iso, now);
    PutAllHas([], es, id);
    if Get(InventoryOf(sightings, iso, now), id).Some? {
      var i :| 0 <= i < |es| && Assigns(es[i], id);
      assert HasId(sightings[i]) && sightings[i].item.fields["id"] == id;
    }
  }

  /** The record kept for an id is the one built from its LAST sighting. */
  lemma LastSightingWins(sightings: seq<Sighting>, iso: string -> Option<DateTime>, now: int, i: nat)
    requires i < |sightings| && HasId(sightings[i])
    requires forall j :: i < j < |sightings| && HasId(sightings[j]) ==>
               sightings[j].item.fields["id"] != sightings[i].item.fields["id"]
    ensures Get(InventoryOf(sightings, iso, now), sightings[i].item.fields["id"]) ==
            Some(MakePostInfo(sightings[i].item.fields, sightings[i].endpoint, iso, now))
  {
    PutAllLastWins([], Assignments(sightings, iso, now), sightings[i].item.fields["id"], i);
  }

  /** Every record is stored under its own id and was built from some sighting, with that sighting's endpoint and status. */
  lemma {:induction false} InventoryRecords(sightings: seq<Sighting>, iso: string -> Option<DateTime>, now: int, j: nat)
    requires j < |InventoryOf(sightings, iso, now)|
    ensures var (id, info) := InventoryOf(sightings, iso, now)[j];
            && info.id == id
            && exists i :: 0 <= i < |sightings| && HasId(sightings[i]) &&
                 info == MakePostInfo(sightings[i].item.fields, sightings[i].endpoint, iso, now)
  {
    var es := Assignments(sightings, iso, now);
    var entry := InventoryOf(sightings, iso, now)[j];
    PutAllEntries([], es);
    assert entry in PutAll([], es);
    var i :| 0 <= i < |es| && es[i] == Some(entry);
    assert Recorded(sightings[i], iso, now) == Some(entry);
  }
}
