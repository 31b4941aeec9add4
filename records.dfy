/**
 * The records of the extractors (`Review`, `Business` and its `to_dict`)
 * and the star-rating lookup that the listing and detail extractors share.
 */
module Records {
  import opened Wrappers
  import opened TextUtils
  import opened Dom
  import opened Values

  /** One review found on a detail page. */
  datatype Review = Review(author: Option<string>, rating: Option<Decimal>, text: Option<string>)

  /** A business record; the listing extractor builds the same six keys as a
      dictionary literal, in the same order. */
  datatype Business = Business(
    businessName: Option<string>,
    address: Option<string>,
    phoneNumber: Option<string>,
    rating: Option<Decimal>,
    reviewText: Option<string>,
    url: Option<string>)

  /** The keys of a business dictionary, in field order. */
  const FieldNames: seq<string> := ["businessName", "address", "phoneNumber", "rating", "reviewText", "url"]

  function OptionalText(s: Option<string>): (v: Value)
    ensures s.None? <==> v == Null
    ensures s.Some? ==> v == Str(s.value)
  {
    match s
    case None => Null
    case Some(t) => Str(t)
  }

  function OptionalNumber(d: Option<Decimal>): (v: Value)
    ensures d.None? <==> v == Null
    ensures d.Some? ==> v == Float(d.value)
  {
    match d
    case None => Null
    case Some(x) => Float(x)
  }

  /** `Business.to_dict()` (`dataclasses.asdict`): one entry per field, keyed
      by the field name, in declaration order, `None` kept as `None`. */
  function ToDict(b: Business): (v: Value)
    ensures v.Mapping? && |v.entries| == |FieldNames|
    ensures forall k | 0 <= k < |FieldNames| :: v.entries[k].0 == KStr(FieldNames[k])
    ensures v.entries[0].1 == OptionalText(b.businessName) && v.entries[5].1 == OptionalText(b.url)
  {
    Mapping([
      (KStr("businessName"), OptionalText(b.businessName)),
      (KStr("address"), OptionalText(b.address)),
      (KStr("phoneNumber"), OptionalText(b.phoneNumber)),
      (KStr("rating"), OptionalNumber(b.rating)),
      (KStr("reviewText"), OptionalText(b.reviewText)),
      (KStr("url"), OptionalText(b.url))
    ])
  }

  /** The six field names are pairwise different. */
  lemma FieldNamesDistinct()
    ensures forall i, j | 0 <= i < j < |FieldNames| :: FieldNames[i] != FieldNames[j]
  {
    forall i, j | 0 <= i < j < |FieldNames| ensures FieldNames[i] != FieldNames[j] {
      assert FieldNames[i][0] != FieldNames[j][0] || FieldNames[i][1] != FieldNames[j][1];
    }
  }

  /** A business dictionary has no key twice. */
  lemma ToDictKeysDistinct(b: Business)
    ensures DistinctKeys(ToDict(b).entries)
  {
    FieldNamesDistinct();
  }

  /** `attrs={"aria-label": re.compile(r"star rating", re.I)}`. */
  const StarRatingLabel: Selector := AttrSearch("aria-label", "star rating")

  /** `node = scope.find(<star rating label>)` followed by
      `extract_rating_from_aria(node["aria-label"])` when a node was found. */
  function StarRating(scope: Node): (r: Option<Decimal>)
  {
    match Find(scope, StarRatingLabel)
    case None => None
    case Some(m) => ExtractRatingFromAria(Some(m.attrs["aria-label"]))
  }
}
