/** Worked inputs for the aggregation, with the collections it produces. */
module AggregationExamples {
  import opened Wrappers
  import opened JsValues
  import opened Collections
  import opened Aggregation

  const names := FieldNames("lat", "lng")

  const a: Record := map["id" := Str("a"), "lat" := Num("1"), "lng" := Num("2")]
  const b: Record := map["id" := Str("b"), "lat" := Num("1"), "lng" := Num("2")]
  const c: Record := map["id" := Str("c"), "lat" := Num("5"), "lng" := Num("5")]

  /** A position given as text that is not a number. */
  const odd: Record := map["lat" := Str("abc"), "lng" := Str("xyz")]
  /** The position 0 / 0. */
  const origin: Record := map["lat" := Num("0"), "lng" := Num("0")]

  lemma GroupsOfSharedPosition()
    ensures GroupBy([a, b, c], KeyOf(names)) == [Group("2 / 1", [a, b]), Group("5 / 5", [c])]
  {
    var key := KeyOf(names);
    assert key(a) == "2 / 1" && key(b) == "2 / 1" && key(c) == "5 / 5";
    assert [a, b, c][..2] == [a, b] && [a, b][..1] == [a] && [a][..0] == [];
    var ga := [Group("2 / 1", [a])];
    assert GroupBy([a], key) == ga;
    assert GroupBy([a, b], key) == AddToGroup(ga, "2 / 1", b);
    assert AddToGroup(ga, "2 / 1", b) == [Group("2 / 1", [a] + [b])] + ga[1..];
    assert [a] + [b] == [a, b] && ga[1..] == [];
    var gab := [Group("2 / 1", [a, b])];
    assert GroupBy([a, b, c], key) == AddToGroup(gab, "5 / 5", c);
    assert AddToGroup(gab[1..], "5 / 5", c) == [Group("5 / 5", [c])];
  }

  lemma PointsOfSharedPosition()
    ensures PointOf(a, names) == Point(NumberOf(Num("2")), NumberOf(Num("1")))
    ensures PointOf(c, names) == Point(NumberOf(Num("5")), NumberOf(Num("5")))
  {
  }

  /** Two records at the same position and one elsewhere give two features,
      the first holding both records in input order. */
  lemma SharedPositionMakesOneFeature()
    ensures Aggregate([a, b, c], None, names)
         == [Feature(Point(NumberOf(Num("2")), NumberOf(Num("1"))), [a, b]),
             Feature(Point(NumberOf(Num("5")), NumberOf(Num("5"))), [c])]
  {
    WhereAll([a, b, c], KeepsFilter(None));
    GroupsOfSharedPosition();
    PointsOfSharedPosition();
    var fc := Aggregate([a, b, c], None, names);
    assert |fc| == 2;
    assert fc[0] == Feature(PointOf(a, names), [a, b]);
    assert fc[1] == Feature(PointOf(c, names), [c]);
  }

  lemma GroupsOfNonNumericPosition()
    ensures GroupBy([odd, origin], KeyOf(names)) == [Group("xyz / abc", [odd]), Group("0 / 0", [origin])]
  {
    var key := KeyOf(names);
    assert key(odd) == "xyz / abc" && key(origin) == "0 / 0";
    assert [odd, origin][..1] == [odd] && [odd][..0] == [];
    var ga := [Group("xyz / abc", [odd])];
    assert GroupBy([odd], key) == ga;
    assert GroupBy([odd, origin], key) == AddToGroup(ga, "0 / 0", origin);
    assert AddToGroup(ga[1..], "0 / 0", origin) == [Group("0 / 0", [origin])];
  }

  lemma PointsOfNonNumericPosition()
    ensures PointOf(odd, names) == Point(NumberOf(Str("xyz")), NumberOf(Str("abc")))
    ensures PointOf(origin, names) == Point(Zero, Zero)
  {
  }

  /** Grouping uses the raw text of the fields: a non-numeric position is
      not merged with the position 0 / 0, and it is placed with `Number`
      of the raw value rather than at 0. */
  lemma NonNumericPositionIsItsOwnFeature()
    ensures Aggregate([odd, origin], None, names)
         == [Feature(Point(NumberOf(Str("xyz")), NumberOf(Str("abc"))), [odd]),
             Feature(Point(Zero, Zero), [origin])]
  {
    WhereAll([odd, origin], KeepsFilter(None));
    GroupsOfNonNumericPosition();
    PointsOfNonNumericPosition();
    var fc := Aggregate([odd, origin], None, names);
    assert |fc| == 2;
    assert fc[0] == Feature(PointOf(odd, names), [odd]);
    assert fc[1] == Feature(PointOf(origin, names), [origin]);
  }

  /** A filter that no record passes leaves a collection without features. */
  lemma FilterRejectingAllGivesNoFeatures()
    ensures Aggregate([a, b, c], Some(FilterItem("Schools", "#00f", FilterSpec("id", Str("z")))), names) == []
  {
    var f := FilterItem("Schools", "#00f", FilterSpec("id", Str("z")));
    assert Get(a, "id") == Str("a") && Get(b, "id") == Str("b") && Get(c, "id") == Str("c");
    AggregateOfNothing([a, b, c], Some(f), names);
  }
}
