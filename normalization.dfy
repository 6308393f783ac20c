/** The records the asset API returns, the two shapes of a response body, and how a
    body is normalized into the client's map from service tag to record. */
module Normalization {

  /** A service tag: the vendor's identifier of one physical asset. */
  type Tag = string

  /** One warranty or service entitlement of an asset. */
  datatype Entitlement = Entitlement(endDate: string)

  /** One asset as the API returns it: its `serviceTag`, the endpoint-specific scalar
      fields by name (`shipDate`, `systemDescription`, ...) and its entitlements
      (empty when the endpoint returns none). */
  datatype Record = Record(serviceTag: Tag, fields: map<string, string>, entitlements: seq<Entitlement>)

  /** A decoded JSON body: a list of records or one record. */
  datatype Body = List(records: seq<Record>) | Single(record: Record)

  /** What a GET on the asset API yields: the HTTP status and the decoded body. */
  datatype Response = Response(status: int, body: Body)

  const HttpOk: int := 200

  /** The service tags carried by the records of a list. */
  function Tags(rs: seq<Record>): set<Tag>
  {
    set i | 0 <= i < |rs| :: rs[i].serviceTag
  }

  /** No two entries of `m` hold records with the same `serviceTag`. */
  predicate UniqueTags(m: map<Tag, Record>)
  {
    forall k1, k2 :: k1 in m && k2 in m && m[k1].serviceTag == m[k2].serviceTag ==> k1 == k2
  }

  /** Index `i` holds the last record of `rs` that carries tag `t`. */
  predicate LastWithTag(rs: seq<Record>, t: Tag, i: int)
  {
    0 <= i < |rs| && rs[i].serviceTag == t &&
    forall j :: i < j < |rs| ==> rs[j].serviceTag != t
  }

  /** A list body re-indexed by each element's `serviceTag`, left to right, so that a
      later record overwrites an earlier one with the same tag. Every key is the tag
      of the record stored under it, and the keys are exactly the tags in the list. */
  function Index(rs: seq<Record>): (m: map<Tag, Record>)
    ensures m.Keys == Tags(rs)
    ensures forall t :: t in m ==> m[t].serviceTag == t
    decreases |rs|
  {
    if rs == [] then map[]
    else
      var init, last := rs[..|rs| - 1], rs[|rs| - 1];
      assert Tags(rs) == Tags(init) + {last.serviceTag} by {
        assert forall i :: 0 <= i < |init| ==> rs[i] == init[i];
      }
      Index(init)[last.serviceTag := last]
  }

  /** Each key of the re-indexed list maps to the LAST record carrying that tag. */
  lemma {:induction false} IndexLastWins(rs: seq<Record>, i: int)
    requires 0 <= i < |rs| && LastWithTag(rs, rs[i].serviceTag, i)
    ensures rs[i].serviceTag in Index(rs) && Index(rs)[rs[i].serviceTag] == rs[i]
    decreases |rs|
  {
    if i < |rs| - 1 {
      var init := rs[..|rs| - 1];
      assert init[i] == rs[i];
      IndexLastWins(init, i);
    }
  }

  /** There are no more distinct tags than records. */
  lemma {:induction false} TagsBound(rs: seq<Record>)
    ensures |Tags(rs)| <= |rs|
    decreases |rs|
  {
    if rs != [] {
      var init := rs[..|rs| - 1];
      assert Tags(rs) == Tags(init) + {rs[|rs| - 1].serviceTag} by {
        assert forall i :: 0 <= i < |init| ==> rs[i] == init[i];
      }
      TagsBound(init);
    }
  }

  /** With pairwise distinct tags nothing is overwritten: one entry per record. */
  lemma {:induction false} TagsDistinct(rs: seq<Record>)
    requires forall i, j :: 0 <= i < j < |rs| ==> rs[i].serviceTag != rs[j].serviceTag
    ensures |Tags(rs)| == |rs|
    decreases |rs|
  {
    if rs != [] {
      var init := rs[..|rs| - 1];
      assert Tags(rs) == Tags(init) + {rs[|rs| - 1].serviceTag} by {
        assert forall i :: 0 <= i < |init| ==> rs[i] == init[i];
      }
      assert rs[|rs| - 1].serviceTag !in Tags(init);
      TagsDistinct(init);
    }
  }

  /** The number of entries the re-indexed list holds: the number of distinct tags,
      never more than the length of the list, and equal to it when no tag repeats. */
  lemma IndexSize(rs: seq<Record>)
    ensures |Index(rs)| == |Tags(rs)| <= |rs|
    ensures (forall i, j :: 0 <= i < j < |rs| ==> rs[i].serviceTag != rs[j].serviceTag) ==> |Index(rs)| == |rs|
  {
    assert |Index(rs)| == |Index(rs).Keys|;
    TagsBound(rs);
    if forall i, j :: 0 <= i < j < |rs| ==> rs[i].serviceTag != rs[j].serviceTag {
      TagsDistinct(rs);
    }
  }

  /** The map held after a GET: unchanged unless the status is 200; a list body
      re-indexed by tag; a single record keyed by the tag string the caller requested.
      Whichever branch is taken, no two entries share a record tag afterwards. */
  function Normalize(prior: map<Tag, Record>, requested: Tag, response: Response): (m: map<Tag, Record>)
    requires UniqueTags(prior)
    ensures UniqueTags(m)
  {
    if response.status != HttpOk then prior
    else
      match response.body
      case List(records) => Index(records)
      case Single(record) => map[requested := record]
  }

  /** After a 200 list response the count of entries is the number of distinct tags
      in the list, at most its length; after a 200 single-record response it is 1. */
  lemma NormalizedSize(prior: map<Tag, Record>, requested: Tag, response: Response)
    requires UniqueTags(prior) && response.status == HttpOk
    ensures response.body.List? ==>
      |Normalize(prior, requested, response)| == |Tags(response.body.records)| <= |response.body.records|
    ensures response.body.Single? ==> |Normalize(prior, requested, response)| == 1
  {
    if response.body.List? {
      IndexSize(response.body.records);
    }
  }

  /** `array_column(assets, field, 'serviceTag')`: each record that carries `field`
      contributes its value under the record's own `serviceTag`; the others are skipped. */
  function Project(assets: map<Tag, Record>, field: string): (r: map<Tag, string>)
    requires UniqueTags(assets)
    ensures forall k :: k in assets && field in assets[k].fields ==>
      assets[k].serviceTag in r && r[assets[k].serviceTag] == assets[k].fields[field]
    ensures forall t :: t in r ==>
      exists k :: k in assets && assets[k].serviceTag == t && field in assets[k].fields
  {
    map k | k in assets && field in assets[k].fields :: assets[k].serviceTag := assets[k].fields[field]
  }

  /** Projecting a re-indexed list: tag `t` is present exactly when the last record
      carrying `t` has the field, and then holds that record's value; an earlier
      duplicate that had the field does not show through. */
  lemma ProjectIndex(rs: seq<Record>, field: string, i: int)
    requires 0 <= i < |rs| && LastWithTag(rs, rs[i].serviceTag, i)
    ensures UniqueTags(Index(rs))
    ensures rs[i].serviceTag in Project(Index(rs), field) <==> field in rs[i].fields
    ensures field in rs[i].fields ==> Project(Index(rs), field)[rs[i].serviceTag] == rs[i].fields[field]
  {
    IndexLastWins(rs, i);
  }
}
