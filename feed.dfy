/**
 * The volume arithmetic of the Feed record (feed_baby/feed.py). This is the
 * older conversion, with its own constants and rounding rules: it truncates when
 * storing and rounds half-to-even when displaying, unlike Units. The feeds
 * table that Feed.save and Feed.delete change is here too.
 */
module Feeds {
  import opened Wrappers
  import opened DecimalRounding
  import Units

  /** ml_per_oz in from_form. */
  const MlPerOz: real := 29.5735
  /** oz_per_ml in the ounces property. */
  const OzPerMl: real := 0.033814

  /**
   * A feeding event: database id (None until saved), volume in microlitres and
   * the parsed instant, kept as its ISO-8601 text.
   */
  datatype Feed = Feed(id: Option<int>, volumeUl: int, datetime: string)
  {
    /** The `ounces` property: volume_ul / 1000 * 0.033814 quantized to 0.01 (half-even). */
    function Ounces(): (ounces: real)
      ensures Units.IsHundredths(ounces)
      ensures Abs(ounces - volumeUl as real / 1000.0 * OzPerMl) <= 0.005
      ensures Abs(ounces - volumeUl as real / 1000.0 * OzPerMl) == 0.005 ==> (ounces * 100.0).Floor % 2 == 0
      ensures volumeUl >= 0 ==> ounces >= 0.0
    {
      var hundredths := RoundHalfEven(volumeUl as real / 1000.0 * OzPerMl * 100.0);
      Units.WholeHundredths(hundredths);
      hundredths as real / 100.0
    }
  }

  /** The volume computed by from_form: int(ounces * 29.5735 * 1000), truncated toward zero. */
  function VolumeFromOunces(ounces: real): (volumeUl: int)
    ensures Abs(volumeUl as real) <= Abs(ounces * MlPerOz * 1000.0) < Abs(volumeUl as real) + 1.0
    ensures ounces >= 0.0 ==> 0 <= volumeUl
    ensures ounces <= 0.0 ==> volumeUl <= 0
  {
    TruncateTowardZero(ounces * MlPerOz * 1000.0)
  }

  /**
   * Feed.from_form with the date/time/timezone already parsed into `datetime`.
   * The new feed has no id yet.
   */
  function FromForm(ounces: real, datetime: string): (feed: Feed)
    ensures feed.id == None && feed.datetime == datetime
    ensures feed.volumeUl == VolumeFromOunces(ounces)
  {
    Feed(None, VolumeFromOunces(ounces), datetime)
  }

  /**
   * Storing and reading back a whole number of hundredths of an ounce gives the
   * same value for every amount from 0 to 2500 oz.
   */
  lemma RoundTrip(hundredths: int, datetime: string)
    requires 0 <= hundredths <= 250_000
    ensures FromForm(hundredths as real / 100.0, datetime).Ounces() == hundredths as real / 100.0
  {
    var x := hundredths as real / 100.0;
    var v := VolumeFromOunces(x);
    var y := v as real / 1000.0 * OzPerMl * 100.0;
    assert hundredths as real * 0.999998329 - 0.0033814 < y <= hundredths as real * 0.999998329;
    NearestIsUnique(y, hundredths);
  }

  /**
   * Within that range the read-back is within 0.01 oz of what was entered
   * (the tolerance the connection-handling tests use).
   */
  lemma RoundTripWithinTolerance(ounces: real, datetime: string)
    requires Units.IsHundredths(ounces) && 0.0 <= ounces <= 2500.0
    ensures Abs(FromForm(ounces, datetime).Ounces() - ounces) < 0.01
  {
    var hundredths := (ounces * 100.0).Floor;
    assert hundredths as real / 100.0 == ounces;
    RoundTrip(hundredths, datetime);
  }

  /**
   * Past the range the truncated 0.033814 factor shows: 10000 oz reads back as
   * 9999.98 oz.
   */
  lemma RoundTripDriftsAtLargeVolumes(datetime: string)
    ensures FromForm(10000.0, datetime).volumeUl == 295_735_000
    ensures FromForm(10000.0, datetime).Ounces() == 9999.98
  {
    NearestIsUnique(295_735_000.0 / 1000.0 * OzPerMl * 100.0, 999_998);
  }

  /**
   * 3 oz is stored as 88720 microlitres (Units would store 88721) and reads back
   * as 3.00; 3.5 oz reads back as 3.50; 1 oz is within 0.1 ml of 29.5735 ml.
   */
  lemma Examples(datetime: string)
    ensures FromForm(3.0, datetime).volumeUl == 88720
    ensures Units.OuncesToMicroliters(3.0) == 88721
    ensures FromForm(3.0, datetime).Ounces() == 3.0
    ensures FromForm(3.5, datetime).Ounces() == 3.5
    ensures Abs(FromForm(1.0, datetime).volumeUl as real / 1000.0 - MlPerOz) < 0.1
  {
    RoundTrip(300, datetime);
    RoundTrip(350, datetime);
  }

  /**
   * 7,500,000 µL is exactly 253.605 oz by the ounces property's constant: the
   * default context's half-even rule reads it back as 253.60, where half-up
   * would give 253.61.
   */
  lemma TieReadsBackEven(datetime: string)
    ensures Feed(None, 7_500_000, datetime).Ounces() == 253.60
    ensures RoundHalfUp(7_500_000 as real / 1000.0 * OzPerMl * 100.0) == 25361
  {
    var x := 7_500_000 as real / 1000.0 * OzPerMl * 100.0;
    assert x == 25360.5;
    assert x.Floor == 25360;
  }

  /** The feeds table; ids come from a counter standing in for SQLite's row ids. */
  class FeedStore {
    var feeds: map<int, Feed>
    var nextId: int

    ghost predicate Valid()
      reads this
    {
      forall id :: id in feeds ==> id < nextId
    }

    constructor ()
      ensures Valid() && feeds == map[]
    {
      feeds := map[];
      nextId := 1;
    }

    /** Feed.save: insert under a fresh id. */
    method Save(feed: Feed)
      requires Valid()
      modifies this
      ensures Valid()
      ensures old(nextId) !in old(feeds)
      ensures feeds == old(feeds)[old(nextId) := feed.(id := Some(old(nextId)))]
    {
      feeds := feeds[nextId := feed.(id := Some(nextId))];
      nextId := nextId + 1;
    }

    /** Feed.delete: True when a row with that id existed, and it is gone. */
    method Delete(feedId: int) returns (deleted: bool)
      requires Valid()
      modifies this
      ensures Valid()
      ensures deleted <==> feedId in old(feeds)
      ensures feeds == old(feeds) - {feedId}
    {
      deleted := feedId in feeds;
      feeds := feeds - {feedId};
    }
  }
}
