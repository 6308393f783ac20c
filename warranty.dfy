/** The warranty end-date reduction: for every warranty record, the latest entitlement
    end date under the record's service tag. */
module Warranty {
  import opened Normalization
  import opened StringOrder

  /** The running maximum of the end dates, scanned left to right from "" and
      replaced only on a strictly greater date; it is therefore "" or one of the
      end dates. */
  function LatestEndDate(ents: seq<Entitlement>): (latest: string)
    ensures latest == "" || exists i :: 0 <= i < |ents| && ents[i].endDate == latest
    decreases |ents|
  {
    if ents == [] then ""
    else
      var latest, date := LatestEndDate(ents[..|ents| - 1]), ents[|ents| - 1].endDate;
      if Less(latest, date) then date else latest
  }

  /** No end date sorts after the running maximum. */
  lemma {:induction false} LatestIsUpperBound(ents: seq<Entitlement>)
    ensures forall i :: 0 <= i < |ents| ==> !Less(LatestEndDate(ents), ents[i].endDate)
    decreases |ents|
  {
    if ents != [] {
      var init := ents[..|ents| - 1];
      var prev, date := LatestEndDate(init), ents[|ents| - 1].endDate;
      LatestIsUpperBound(init);
      forall i | 0 <= i < |ents|
        ensures !Less(LatestEndDate(ents), ents[i].endDate)
      {
        if i < |ents| - 1 {
          assert ents[i] == init[i];
          if Less(prev, date) && Less(date, ents[i].endDate) {
            LessTransitive(prev, date, ents[i].endDate);
          }
        } else if Less(prev, date) {
          LessIrreflexive(date);
        } else if prev != date {
          LessTotal(prev, date);
        } else {
          LessIrreflexive(date);
        }
      }
    }
  }

  /** A non-empty maximum is the end date of some entitlement, and of the first one
      reaching it: every earlier end date sorts strictly before it. */
  lemma {:induction false} LatestIsFirstMaximal(ents: seq<Entitlement>)
    requires LatestEndDate(ents) != ""
    ensures exists i :: 0 <= i < |ents| && ents[i].endDate == LatestEndDate(ents) &&
                        (forall j :: 0 <= j < i ==> Less(ents[j].endDate, LatestEndDate(ents)))
    decreases |ents|
  {
    var init := ents[..|ents| - 1];
    var prev, date := LatestEndDate(init), ents[|ents| - 1].endDate;
    if Less(prev, date) {
      LatestIsUpperBound(init);
      forall j | 0 <= j < |ents| - 1
        ensures Less(ents[j].endDate, date)
      {
        assert ents[j] == init[j];
        if ents[j].endDate != prev {
          LessTotal(ents[j].endDate, prev);
          LessTransitive(ents[j].endDate, prev, date);
        }
      }
      assert ents[|ents| - 1].endDate == LatestEndDate(ents);
    } else {
      LatestIsFirstMaximal(init);
      var i :| 0 <= i < |init| && init[i].endDate == prev &&
        forall j :: 0 <= j < i ==> Less(init[j].endDate, prev);
      assert ents[i] == init[i];
      assert forall j :: 0 <= j < i ==> ents[j] == init[j];
    }
  }

  /** The maximum stays "" exactly when every end date is "", in particular when
      there are no entitlements at all. */
  lemma {:induction false} LatestEmptyIff(ents: seq<Entitlement>)
    ensures LatestEndDate(ents) == "" <==> forall i :: 0 <= i < |ents| ==> ents[i].endDate == ""
  {
    if LatestEndDate(ents) == "" {
      LatestIsUpperBound(ents);
      forall i | 0 <= i < |ents|
        ensures ents[i].endDate == ""
      {
        EmptyIsLeast(ents[i].endDate);
      }
    } else {
      LatestIsFirstMaximal(ents);
    }
  }

  /** `r` is the reduction of the records of `warranties` whose keys are in `keys`:
      each such record whose maximum end date is not "" has that maximum under its
      own `serviceTag`, each such record whose maximum is "" has no entry, and every
      entry of `r` comes from one of these records. */
  ghost predicate ReducedOver(warranties: map<Tag, Record>, keys: set<Tag>, r: map<Tag, string>)
  {
    && (forall k :: k in keys && k in warranties ==>
          var latest := LatestEndDate(warranties[k].entitlements);
          if latest == "" then warranties[k].serviceTag !in r
          else warranties[k].serviceTag in r && r[warranties[k].serviceTag] == latest)
    && (forall t :: t in r ==> exists k :: k in keys && k in warranties && warranties[k].serviceTag == t)
  }

  /** The reduction of all the records. */
  ghost predicate Reduced(warranties: map<Tag, Record>, r: map<Tag, string>)
  {
    ReducedOver(warranties, warranties.Keys, r)
  }

  /** The reduction is a function of the records: two results that both meet it agree. */
  lemma ReducedUnique(warranties: map<Tag, Record>, r1: map<Tag, string>, r2: map<Tag, string>)
    requires Reduced(warranties, r1) && Reduced(warranties, r2)
    ensures r1 == r2
  {
  }

  /** A tag in the reduction maps to an end date of that record which no entitlement
      of it exceeds; a record whose entitlements are missing or all "" has no key. */
  lemma ReducedMeaning(warranties: map<Tag, Record>, r: map<Tag, string>, k: Tag)
    requires Reduced(warranties, r) && k in warranties
    ensures var ents, tag := warranties[k].entitlements, warranties[k].serviceTag;
      && (tag in r <==> exists i :: 0 <= i < |ents| && ents[i].endDate != "")
      && (tag in r ==>
            && (exists i :: 0 <= i < |ents| && ents[i].endDate == r[tag])
            && (forall i :: 0 <= i < |ents| ==> !Less(r[tag], ents[i].endDate)))
  {
    var ents := warranties[k].entitlements;
    LatestEmptyIff(ents);
    LatestIsUpperBound(ents);
    if LatestEndDate(ents) != "" {
      LatestIsFirstMaximal(ents);
    }
  }

  /** Reducing one more record adds at most its own key, which no record reduced
      before produced. */
  lemma ReducedStep(warranties: map<Tag, Record>, done: set<Tag>, k: Tag, r: map<Tag, string>)
    requires UniqueTags(warranties) && k in warranties && k !in done
    requires ReducedOver(warranties, done, r)
    ensures warranties[k].serviceTag !in r
    ensures var latest := LatestEndDate(warranties[k].entitlements);
      ReducedOver(warranties, done + {k}, if latest == "" then r else r[warranties[k].serviceTag := latest])
  {
  }

  /** The inner loop of the reduction, for one record: the running maximum starts
      at "" and, on every strictly greater end date, is updated and written under
      the record's `serviceTag`. The map changes only there, and only when the
      maximum ends above "". */
  method ScanEntitlements(assets: map<Tag, string>, warranty: Record) returns (updated: map<Tag, string>, endDate: string)
    ensures endDate == LatestEndDate(warranty.entitlements)
    ensures updated == if endDate == "" then assets else assets[warranty.serviceTag := endDate]
  {
    updated, endDate := assets, "";
    for i := 0 to |warranty.entitlements|
      invariant endDate == LatestEndDate(warranty.entitlements[..i])
      invariant updated == if endDate == "" then assets else assets[warranty.serviceTag := endDate]
    {
      assert warranty.entitlements[..i + 1][..i] == warranty.entitlements[..i];
      var entitlement := warranty.entitlements[i];
      if Less(endDate, entitlement.endDate) {
        EmptyIsLeast(endDate);
        endDate := entitlement.endDate;
        updated := updated[warranty.serviceTag := entitlement.endDate];
      }
    }
    assert warranty.entitlements[..|warranty.entitlements|] == warranty.entitlements;
  }

  /** The outer loop of the reduction: every warranty record is scanned once, with
      its own running maximum. */
  method ReduceEndDates(warranties: map<Tag, Record>) returns (assets: map<Tag, string>)
    requires UniqueTags(warranties)
    ensures Reduced(warranties, assets)
  {
    assets := map[];
    var todo := warranties.Keys;
    while todo != {}
      invariant todo <= warranties.Keys
      invariant ReducedOver(warranties, warranties.Keys - todo, assets)
      decreases todo
    {
      var k :| k in todo;
      ReducedStep(warranties, warranties.Keys - todo, k, assets);
      var endDate;
      assets, endDate := ScanEntitlements(assets, warranties[k]);
      assert (warranties.Keys - todo) + {k} == warranties.Keys - (todo - {k});
      todo := todo - {k};
    }
  }
}
